/** Which workflow states a replay gives back. A version comes back stable if a version by whose
    stabilization it became stable is in the replayed tail of the journal, and a delete if everything
    below it does. */
module States {
  import opened Basics
  import opened Overlay
  import opened Versions
  import opened Replayed
  import opened Mirror
  import opened Marking
  import opened Placing

  /** A replay that starts at `k` finds what has made the version stable. */
  predicate Settled(v: Ver, k: nat) { k < v.mark }

  /** The journal has made the version stable; a delete is stable as soon as it is journaled. */
  predicate JournalStable(v: Ver) { v.d.kind == Delete || v.mark > 0 }

  // ----- histories that can be told apart

  predicate Falls(a: Ver, b: Ver) { a.mark >= b.mark }

  /** The version by whose stabilization this one became stable is in the history. */
  ghost predicate Backed(s: seq<Ver>, i: nat)
    requires i < |s|
  {
    exists j :: i <= j < |s| && s[j].at + 1 == s[i].mark && s[j].d.state == Stable
  }

  /** Above the last delete nothing that the journal has not made stable is below something that it has.
      The first version over a delete is a big write. */
  ghost predicate Regular(s: seq<Ver>, n: nat) {
    && (forall i :: 0 <= i < |s| ==> s[i].mark <= n)
    && (forall i, j {:trigger Falls(s[i], s[j])} :: 0 <= i < j < |s| && Open(s, i) ==> Falls(s[i], s[j]))
    && (forall i :: 0 <= i < |s| && Open(s, i) && s[i].mark > 0 ==> Backed(s, i))
    && Bottomed(s)
  }

  ghost predicate Bottomed(s: seq<Ver>) {
    forall i :: 0 < i < |s| && s[i - 1].d.kind == Delete ==> s[i].d.kind == BigWrite
  }

  // ----- what the states of a replayed stack are

  predicate AboveDelete(y: Dirty, v: Ver) { v.d.kind == Delete ==> y.version > v.d.version }

  ghost predicate Cleared(x: seq<Dirty>, s: seq<Ver>) {
    forall m, j :: 0 <= m < |x| && 0 <= j < |s| ==> AboveDelete(x[m], s[j])
  }

  /** A version above the last delete: it is there unless it is settled, and stable if and only if it is. */
  ghost predicate Agrees(x: seq<Dirty>, s: seq<Ver>, k: nat, c: Option<nat>, i: nat)
    requires i < |s|
  {
    && (Here(s[i], k, c) && !Settled(s[i], k) ==> Holds(x, s[i].d.version))
    && (Here(s[i], k, c) && Settled(s[i], k) ==> Cleared(x, s))
    && (forall m :: 0 <= m < |x| && x[m].version == s[i].d.version ==> (x[m].state == Stable <==> Settled(s[i], k)))
  }

  /** No delete is from `i` up to below `q`. */
  predicate Between(s: seq<Ver>, i: nat, q: nat)
    requires q <= |s|
  {
    forall j :: i <= j < q ==> s[j].d.kind != Delete
  }

  /** Everything that is replayed between the last but one delete and the last, `s[q]`, is settled. */
  ghost predicate Calm(s: seq<Ver>, q: nat, k: nat, c: Option<nat>)
    requires q <= |s|
  {
    forall i :: 0 <= i < q && Between(s, i, q) && Here(s[i], k, c) ==> Settled(s[i], k)
  }

  /** The last delete. */
  predicate IsTop(s: seq<Ver>, q: nat) { q < |s| && s[q].d.kind == Delete && Open(s, q + 1) }

  ghost predicate DeleteAgrees(x: seq<Dirty>, s: seq<Ver>, k: nat, c: Option<nat>, q: nat, m: nat)
    requires q < |s| && m < |x|
  {
    && (x[m].state == Stable <==> Calm(s, q, k, c))
    && (x[m].state == Stable ==> m == 0)
    && (x[m].state != Stable ==> m > 0 && x[m - 1].kind != Delete)
  }

  ghost predicate Traces(x: seq<Dirty>, s: seq<Ver>, k: nat, c: Option<nat>) {
    && (forall i :: 0 <= i < |s| && Open(s, i) ==> Agrees(x, s, k, c, i))
    && (forall q: nat, m: nat :: IsTop(s, q) && m < |x| && x[m].version == s[q].d.version ==>
          DeleteAgrees(x, s, k, c, q, m))
  }

  ghost predicate Tracked(log: seq<Entry>, s: seq<Ver>) {
    && Regular(s, |log|)
    && forall k: nat, c: Option<nat> {:trigger ReplayLog(log[k..], c)} :: k <= |log| ==>
      Traces(ReplayLog(log[k..], c), s, k, c)
  }

  lemma TopSplits(s: seq<Ver>, q: nat, i: nat)
    requires IsTop(s, q) && i < |s|
    ensures Open(s, i) <==> i > q
  {
  }

  /** Either no delete is above, or there is a last one. */
  lemma {:induction false} FindTop(s: seq<Ver>, i: nat) returns (q: nat)
    requires i < |s| && !Open(s, i)
    ensures i <= q && IsTop(s, q)
    decreases |s| - i
  {
    if i + 1 < |s| && !Open(s, i + 1) {
      q := FindTop(s, i + 1);
    } else {
      q := i;
    }
  }

  // ----- a plain write

  /** How the positions of a history with one more version correspond. */
  function Shift(p: nat, i: nat): nat { if i < p then i else i + 1 }

  /** `s'` is `s` with the plain version `v` at `p`. */
  ghost predicate Gains(s: seq<Ver>, v: Ver, p: nat, s': seq<Ver>) {
    && p <= |s| && |s'| == |s| + 1 && s'[p] == v && v.d.kind != Delete && v.mark == 0
    && (forall i :: 0 <= i < |s| ==> s'[Shift(p, i)] == s[i])
  }

  lemma GainsOpen(s: seq<Ver>, v: Ver, p: nat, s': seq<Ver>, i: nat)
    requires Gains(s, v, p, s') && i < |s|
    ensures Open(s', Shift(p, i)) <==> Open(s, i)
  {
    if Open(s, i) {
      forall j | Shift(p, i) <= j < |s'| ensures s'[j].d.kind != Delete {
        if j < p { assert s'[Shift(p, j)] == s[j]; }
        if j > p { assert s'[Shift(p, j - 1)] == s[j - 1]; }
      }
    }
    if Open(s', Shift(p, i)) {
      forall j | i <= j < |s| ensures s[j].d.kind != Delete { assert s'[Shift(p, j)] == s[j]; }
    }
  }

  lemma GainsBack(s: seq<Ver>, v: Ver, p: nat, s': seq<Ver>, i: nat) returns (a: nat)
    requires Gains(s, v, p, s') && i < |s'| && i != p
    ensures a < |s| && i == Shift(p, a) && s'[i] == s[a]
  {
    a := if i < p then i else i - 1;
    assert s'[Shift(p, a)] == s[a];
  }

  lemma EmplaceTraces(x: seq<Dirty>, x': seq<Dirty>, s: seq<Ver>, d: Dirty, v: Ver, p: nat, s': seq<Ver>, k: nat,
          c: Option<nat>, e: nat)
    requires Traces(x, s, k, c) && Gains(s, v, p, s') && Fresh(d) && d.version == v.d.version
    requires HasPlace(s, d.version) && (forall m :: 0 <= m < |x| ==> x[m].version != d.version)
    requires forall i :: 0 <= i < |s| ==> (s[i].d.version > d.version <==> i >= p)
    requires !Old(d, c) ==> e <= |x| && x' == x[..e] + [d] + x[e..]
    requires !Old(d, c) ==> forall m :: 0 <= m < |x| ==> (x[m].version > d.version <==> m >= e)
    requires Old(d, c) ==> x' == x
    ensures Traces(x', s', k, c)
  {
    hide Traces, HasPlace, Gains;
    forall i | 0 <= i < |s'| && Open(s', i) ensures Agrees(x', s', k, c, i) {
      if i == p {
        NewAgrees(x, x', s, d, v, p, s', k, c, e);
      } else {
        var a := GainsBack(s, v, p, s', i);
        GainsOpen(s, v, p, s', a);
        KeptAgrees(x, x', s, d, v, p, s', k, c, e, a);
      }
    }
    forall q: nat, m: nat | IsTop(s', q) && m < |x'| && x'[m].version == s'[q].d.version
      ensures DeleteAgrees(x', s', k, c, q, m)
    {
      KeptDelete(x, x', s, d, v, p, s', k, c, e, q, m);
    }
    MakeTraces(x', s', k, c);
  }

  lemma MakeTraces(x: seq<Dirty>, s: seq<Ver>, k: nat, c: Option<nat>)
    requires forall i :: 0 <= i < |s| && Open(s, i) ==> Agrees(x, s, k, c, i)
    requires forall q: nat, m: nat :: IsTop(s, q) && m < |x| && x[m].version == s[q].d.version ==>
      DeleteAgrees(x, s, k, c, q, m)
    ensures Traces(x, s, k, c)
  {
  }

  lemma NewAgrees(x: seq<Dirty>, x': seq<Dirty>, s: seq<Ver>, d: Dirty, v: Ver, p: nat, s': seq<Ver>, k: nat,
          c: Option<nat>, e: nat)
    requires Gains(s, v, p, s') && Fresh(d) && d.version == v.d.version
    requires forall m :: 0 <= m < |x| ==> x[m].version != d.version
    requires !Old(d, c) ==> e <= |x| && x' == x[..e] + [d] + x[e..]
    requires Old(d, c) ==> x' == x
    ensures Agrees(x', s', k, c, p)
  {
    if !Old(d, c) {
      assert x'[e] == d;
      forall m | 0 <= m < |x'| && x'[m].version == d.version ensures x'[m].state != Stable {
        PickAt(x, d, e, m);
      }
    }
  }

  lemma PickAt(x: seq<Dirty>, d: Dirty, e: nat, m: nat)
    requires e <= |x| && m <= |x|
    ensures (x[..e] + [d] + x[e..])[m] == if m < e then x[m] else if m == e then d else x[m - 1]
  {
  }

  lemma ClearMore(x: seq<Dirty>, x': seq<Dirty>, s: seq<Ver>, d: Dirty, v: Ver, p: nat, s': seq<Ver>, e: nat)
    requires Cleared(x, s) && Gains(s, v, p, s') && HasPlace(s, d.version)
    requires x' == x || (e <= |x| && x' == x[..e] + [d] + x[e..])
    ensures Cleared(x', s')
  {
    forall m, j | 0 <= m < |x'| && 0 <= j < |s'| ensures AboveDelete(x'[m], s'[j]) {
      if j != p {
        var a := GainsBack(s, v, p, s', j);
        assert PlaceAt(s[a].d, d.version);
        if x' != x && m > e { assert x'[m] == x[m - 1]; }
        if x' == x || m < e { assert x'[m] == x[m] && AboveDelete(x[m], s[a]); }
        if x' != x && m > e { assert AboveDelete(x[m - 1], s[a]); }
      }
    }
  }

  lemma KeptAgrees(x: seq<Dirty>, x': seq<Dirty>, s: seq<Ver>, d: Dirty, v: Ver, p: nat, s': seq<Ver>, k: nat,
          c: Option<nat>, e: nat, a: nat)
    requires Traces(x, s, k, c) && Gains(s, v, p, s') && a < |s| && Open(s, a) && HasPlace(s, d.version)
    requires !Old(d, c) ==> e <= |x| && x' == x[..e] + [d] + x[e..]
    requires Old(d, c) ==> x' == x
    ensures Agrees(x', s', k, c, Shift(p, a))
  {
    hide Cleared, HasPlace;
    var i := Shift(p, a);
    assert Agrees(x, s, k, c, a) && s'[i] == s[a];
    if Cleared(x, s) { ClearMore(x, x', s, d, v, p, s', e); }
    if Old(d, c) { } else {
      forall m | 0 <= m < |x| ensures x[m] in x' { assert if m < e then x'[m] == x[m] else x'[m + 1] == x[m]; }
      LargerHolds(x, x', s[a].d.version);
      forall m | 0 <= m < |x'| && x'[m].version == s[a].d.version
        ensures x'[m].state == Stable <==> Settled(s[a], k)
      {
        if m < e { assert x'[m] == x[m]; }
        if m > e { assert x'[m] == x[m - 1]; }
        if m == e { NotNew(s, d.version, a); }
      }
    }
  }

  lemma NotNew(s: seq<Ver>, version: nat, a: nat)
    requires HasPlace(s, version) && a < |s|
    ensures s[a].d.version != version
  {
    assert PlaceAt(s[a].d, version);
  }

  lemma KeptDelete(x: seq<Dirty>, x': seq<Dirty>, s: seq<Ver>, d: Dirty, v: Ver, p: nat, s': seq<Ver>, k: nat,
          c: Option<nat>, e: nat, q: nat, m: nat)
    requires Traces(x, s, k, c) && Gains(s, v, p, s') && HasPlace(s, d.version) && d.version == v.d.version
    requires !Old(d, c) ==> e <= |x| && x' == x[..e] + [d] + x[e..]
    requires !Old(d, c) ==> forall m :: 0 <= m < |x| ==> (x[m].version > d.version <==> m >= e)
    requires Old(d, c) ==> x' == x
    requires IsTop(s', q) && m < |x'| && x'[m].version == s'[q].d.version
    requires forall i :: 0 <= i < |s| ==> (s[i].d.version > d.version <==> i >= p)
    ensures DeleteAgrees(x', s', k, c, q, m)
  {
    hide Traces, Calm;
    var a := GainsBack(s, v, p, s', q);
    if a + 1 < |s| { GainsOpen(s, v, p, s', a + 1); }
    TopBefore(s, v, p, s', q, a);
    assert PlaceAt(s[a].d, d.version);
    if !Old(d, c) {
      PickAt(x, d, e, m);
      if m > 0 { PickAt(x, d, e, m - 1); }
    }
    TracesDelete(x, s, k, c, a, m);
    CalmKept(s, v, p, s', k, c, q, a);
  }

  lemma TracesDelete(x: seq<Dirty>, s: seq<Ver>, k: nat, c: Option<nat>, q: nat, m: nat)
    requires Traces(x, s, k, c) && IsTop(s, q) && m < |x| && x[m].version == s[q].d.version
    ensures DeleteAgrees(x, s, k, c, q, m)
  {
  }

  /** The last delete stays the last, and the new version is above it. */
  lemma TopBefore(s: seq<Ver>, v: Ver, p: nat, s': seq<Ver>, q: nat, a: nat)
    requires Gains(s, v, p, s') && IsTop(s', q) && a < |s| && q == Shift(p, a) && HasPlace(s, v.d.version)
    ensures IsTop(s, a)
  {
    forall j | a + 1 <= j < |s| ensures s[j].d.kind != Delete { assert s'[Shift(p, j)] == s[j]; }
  }

  lemma SameBelow(s: seq<Ver>, s': seq<Ver>, k: nat, c: Option<nat>, q: nat)
    requires q <= |s| && q <= |s'| && forall i :: 0 <= i < q ==> Same(s[i], s'[i])
    ensures Calm(s', q, k, c) <==> Calm(s, q, k, c)
  {
    forall i | 0 <= i < q ensures Between(s', i, q) <==> Between(s, i, q) {
      if Between(s, i, q) { forall j | i <= j < q ensures s'[j].d.kind != Delete { assert Same(s[j], s'[j]); } }
      if Between(s', i, q) { forall j | i <= j < q ensures s[j].d.kind != Delete { assert Same(s[j], s'[j]); } }
    }
    assert forall i :: 0 <= i < q ==> Same(s[i], s'[i]);
  }

  /** The same but for the state. */
  predicate Same(v: Ver, v': Ver) { v' == v.(d := v.d.(state := v'.d.state)) }

  lemma CalmKept(s: seq<Ver>, v: Ver, p: nat, s': seq<Ver>, k: nat, c: Option<nat>, q: nat, a: nat)
    requires Gains(s, v, p, s') && a < |s| && q == Shift(p, a) && s[a].d.kind == Delete
    requires q < p
    ensures Calm(s', q, k, c) <==> Calm(s, a, k, c)
  {
    forall i | 0 <= i < q ensures s'[i] == s[i] { assert s'[Shift(p, i)] == s[i]; }
    SameBelow(s, s', k, c, q);
  }

  // ----- a stabilization

  /** What a walk from `e` down to `z` leaves: marks in between, and nothing below a big write or delete. */
  ghost predicate Walked(x: seq<Dirty>, r: seq<Dirty>, z: nat, e: nat) {
    && z <= e < |x| && |r| == |x| - Gap(x, z)
    && (forall g :: 0 <= g < |r| ==> r[g] == WalkedAt(x, z, e, g + Gap(x, z)))
    && (forall g :: z < g <= e ==> !Barrier(x[g]) && x[g].state != Stable)
    && (Barrier(x[z]) || x[z].state == Stable || z == 0)
  }

  function Gap(x: seq<Dirty>, z: nat): nat
    requires z < |x|
  {
    if Barrier(x[z]) then z else 0
  }

  function WalkedAt(x: seq<Dirty>, z: nat, e: nat, h: nat): Dirty
    requires h < |x|
  {
    if z <= h <= e then Marked(x[h]) else x[h]
  }

  lemma {:induction false} WalkStops(x: seq<Dirty>, e: nat) returns (z: nat)
    requires e < |x|
    ensures Walked(x, Walk(x, e), z, e)
    decreases e
  {
    hide Walk;
    WalkUnfold(x, e);
    var x' := x[e := Marked(x[e])];
    if !Barrier(x[e]) && x[e].state != Stable && e > 0 {
      z := WalkStops(x', e - 1);
      assert forall g :: 0 <= g < e ==> x'[g] == x[g];
    } else {
      z := e;
    }
  }

  /** `s'` is `s` after a stabilization of version `s[i]`. */
  ghost predicate Lifts(s: seq<Ver>, s': seq<Ver>, i: nat)
    requires i < |s|
  {
    |s'| == |s| && forall j :: 0 <= j < |s| ==> Lift(s[j], s'[j], if j <= i && Open(s, j) then s[i].at + 1 else 0)
  }

  predicate Lift(v: Ver, v': Ver, mark: nat) {
    v' == v.(d := v.d.(state := v'.d.state), mark := if mark > v.mark then mark else v.mark)
  }

  lemma LiftsOpen(s: seq<Ver>, s': seq<Ver>, i: nat, j: nat)
    requires i < |s| && Lifts(s, s', i)
    ensures Open(s', j) <==> Open(s, j)
  {
    forall g | 0 <= g < |s| ensures s'[g].d.kind == s[g].d.kind { LiftsAt(s, s', i, g); }
  }

  lemma LiftsAt(s: seq<Ver>, s': seq<Ver>, i: nat, j: nat)
    requires i < |s| && Lifts(s, s', i) && j < |s|
    ensures |s'| == |s| && Lift(s[j], s'[j], if j <= i && Open(s, j) then s[i].at + 1 else 0)
  {
  }

  /** The walk does not leave the part above the last delete. */
  lemma StopOpen(x: seq<Dirty>, s: seq<Ver>, n: nat, k: nat, c: Option<nat>, i: nat, e: nat, z: nat, h: nat)
    requires Ordered(s, n) && Increasing(x) && AllKnown(x, s, k, c) && Traces(x, s, k, c) && Bottomed(s)
    requires i < |s| && Open(s, i) && z <= e < |x| && x[e].version == s[i].d.version
    requires forall g :: z < g <= e ==> !Barrier(x[g])
    requires h < |s| && Comes(x[z], s[h], k, c)
    ensures Open(s, h)
  {
    hide Ordered, Traces, AllKnown, Open;
    if !Open(s, h) {
      var q := FindTop(s, h);
      TopSplits(s, q, i);
      FirstAbove(s, n, k, c, q, h);
      TracesAt(x, s, k, c, q + 1) by { TopSplits(s, q, q + 1); }
      if Settled(s[q + 1], k) {
        StillAbove(x, s, n, q, h, z);
      } else {
        var g :| 0 <= g < |x| && x[g].version == s[q + 1].d.version;
        var b := Source(x, s, k, c, g);
        SameVersionSame(s, n, b, q + 1);
        OrderedPair(s, n, h, q + 1);
        if q + 1 < i { OrderedPair(s, n, q + 1, i); }
        OrderIndex(x, e, g);
        OrderIndex(x, z, g);
      }
    }
  }

  lemma OrderIndex(x: seq<Dirty>, a: nat, b: nat)
    requires Increasing(x) && a < |x| && b < |x|
    ensures x[a].version < x[b].version <==> a < b
  {
  }

  lemma TracesAt(x: seq<Dirty>, s: seq<Ver>, k: nat, c: Option<nat>, i: nat)
    requires Traces(x, s, k, c) && i < |s| && Open(s, i)
    ensures Agrees(x, s, k, c, i)
  {
  }

  lemma StillAbove(x: seq<Dirty>, s: seq<Ver>, n: nat, q: nat, h: nat, z: nat)
    requires Ordered(s, n) && z < |x| && h <= q < |s| && s[q].d.kind == Delete && x[z].version == s[h].d.version
    ensures !Cleared(x, s)
  {
    if h < q { OrderedPair(s, n, h, q); }
    assert !AboveDelete(x[z], s[q]);
  }

  /** If something at or below a delete is replayed, so is the big write over the delete. */
  lemma FirstAbove(s: seq<Ver>, n: nat, k: nat, c: Option<nat>, q: nat, h: nat)
    requires Ordered(s, n) && Bottomed(s) && h <= q && q + 1 < |s| && s[q].d.kind == Delete && Here(s[h], k, c)
    ensures Here(s[q + 1], k, c) && s[q + 1].d.kind == BigWrite
  {
    hide Ordered;
    OrderedPair(s, n, q, q + 1);
    if h < q { OrderedPair(s, n, h, q); }
    assert s[q + 1 - 1].d.kind == Delete;
  }

  /** After a walk nothing at or below a delete is left. */
  lemma WalkClears(x: seq<Dirty>, x': seq<Dirty>, s: seq<Ver>, n: nat, k: nat, c: Option<nat>, i: nat, e: nat, z: nat,
          h: nat)
    requires Ordered(s, n) && Increasing(x) && Traces(x, s, k, c) && Walked(x, x', z, e)
    requires h < |s| && Open(s, h) && Comes(x[z], s[h], k, c)
    ensures Cleared(x', s)
  {
    hide Ordered, Traces;
    if !Barrier(x[z]) && x[z].state == Stable {
      TracesAt(x, s, k, c, h);
      assert Cleared(x, s);
      forall m, j | 0 <= m < |x'| && 0 <= j < |s| ensures AboveDelete(x'[m], s[j]) {
        assert AboveDelete(x[m], s[j]) && x'[m] == WalkedAt(x, z, e, m + 0);
      }
    } else {
      forall m, j | 0 <= m < |x'| && 0 <= j < |s| ensures AboveDelete(x'[m], s[j]) {
        assert x'[m] == WalkedAt(x, z, e, m + z);
        assert x[z].version <= x[m + z].version;
        if s[j].d.kind == Delete { OrderedPair(s, n, j, h); }
      }
    }
  }

  lemma ClearLifts(x: seq<Dirty>, s: seq<Ver>, s': seq<Ver>, i: nat)
    requires i < |s| && Cleared(x, s) && Lifts(s, s', i)
    ensures Cleared(x, s')
  {
    forall m, j | 0 <= m < |x| && 0 <= j < |s'| ensures AboveDelete(x[m], s'[j]) {
      LiftsAt(s, s', i, j);
      assert AboveDelete(x[m], s[j]);
    }
  }

  /** Below where the walk stops, everything is stable. */
  lemma BelowStop(x: seq<Dirty>, s: seq<Ver>, n: nat, k: nat, c: Option<nat>, z: nat, h: nat, m: nat, j: nat)
    requires Ordered(s, n) && Increasing(x) && Traces(x, s, k, c) && m < z < |x| && x[z].state == Stable
    requires h < |s| && Open(s, h) && Comes(x[z], s[h], k, c) && j < |s| && Open(s, j) && x[m].version == s[j].d.version
    requires j < h ==> Falls(s[j], s[h])
    ensures x[m].state == Stable
  {
    hide Ordered, Traces;
    assert x[m].version < x[z].version;
    if j > h { OrderedPair(s, n, h, j); }
    TracesAt(x, s, k, c, h);
    TracesAt(x, s, k, c, j);
  }

  lemma MarkedAgrees(x: seq<Dirty>, x': seq<Dirty>, s: seq<Ver>, s': seq<Ver>, n: nat, k: nat, c: Option<nat>, i: nat,
          e: nat, z: nat, h: nat, j: nat)
    requires Ordered(s, n) && Increasing(x) && AllDone(x) && Traces(x, s, k, c) && Walked(x, x', z, e)
    requires i < |s| && x[e].version == s[i].d.version && Here(s[i], k, c) && Lifts(s, s', i)
    requires h < |s| && Open(s, h) && Comes(x[z], s[h], k, c) && Cleared(x', s') && j < |s| && Open(s, j)
    requires j < h <= i ==> Falls(s[j], s[h])
    requires h <= i
    ensures Agrees(x', s', k, c, j)
  {
    hide Ordered, Traces, Cleared;
    LiftsAt(s, s', i, j);
    TracesAt(x, s, k, c, j);
    var off := Gap(x, z);
    if j <= i {
      if j < i { OrderedPair(s, n, j, i); }
      forall m | 0 <= m < |x'| && x'[m].version == s'[j].d.version ensures x'[m].state == Stable {
        var g := m + off;
        assert x'[m] == WalkedAt(x, z, e, g);
        OrderIndex(x, e, g);
        if g < z { BelowStop(x, s, n, k, c, z, h, g, j); }
      }
    } else {
      OrderedPair(s, n, i, j);
      if Holds(x, s[j].d.version) {
        var g :| 0 <= g < |x| && x[g].version == s[j].d.version;
        OrderIndex(x, e, g);
        assert x'[g - off] == WalkedAt(x, z, e, g - off + off);
      }
      forall m | 0 <= m < |x'| && x'[m].version == s'[j].d.version ensures x'[m].state == Stable <==> Settled(s[j], k) {
        var g := m + off;
        assert x'[m] == WalkedAt(x, z, e, g);
        OrderIndex(x, e, g);
      }
    }
  }

  /** The stabilized version is found above the last delete. */
  lemma MarkFound(x: seq<Dirty>, s: seq<Ver>, s': seq<Ver>, n: nat, k: nat, c: Option<nat>, i: nat, e: nat)
    requires Ordered(s, n) && Increasing(x) && AllKnown(x, s, k, c) && Traces(x, s, k, c) && Bottomed(s)
    requires i < |s| && Open(s, i) && Lifts(s, s', i) && e < |x| && x[e].version == s[i].d.version
    requires forall a, b {:trigger Falls(s[a], s[b])} :: 0 <= a < b < i && Open(s, a) ==> Falls(s[a], s[b])
    requires x[e].state == Stable ==> forall a :: 0 <= a < i && Open(s, a) ==> Falls(s[a], s[i])
    ensures Traces(Walk(x, e), s', k, c)
  {
    hide Ordered, Traces, AllKnown, Lifts, Walk, Open, Cleared;
    KnownDone(x, s, k, c);
    var z := WalkStops(x, e);
    var x' := Walk(x, e);
    var h := Source(x, s, k, c, z);
    var i' := Source(x, s, k, c, e);
    SameVersionSame(s, n, i, i');
    StopOpen(x, s, n, k, c, i, e, z, h);
    WalkClears(x, x', s, n, k, c, i, e, z, h);
    ClearLifts(x', s, s', i);
    LiftsLength(s, s', i);
    StopBelow(x, s, n, k, c, i, e, z, h);
    forall j | 0 <= j < |s'| && Open(s', j) ensures Agrees(x', s', k, c, j) {
      LiftsOpen(s, s', i, j);
      OrderIndex(x, z, e);
      MarkedAgrees(x, x', s, s', n, k, c, i, e, z, h, j);
    }
    ClearTraces(x', s', k, c);
  }

  lemma ClearTraces(x: seq<Dirty>, s: seq<Ver>, k: nat, c: Option<nat>)
    requires Cleared(x, s) && forall i :: 0 <= i < |s| && Open(s, i) ==> Agrees(x, s, k, c, i)
    ensures Traces(x, s, k, c)
  {
    forall q: nat, m: nat | IsTop(s, q) && m < |x| ensures x[m].version != s[q].d.version {
      assert AboveDelete(x[m], s[q]);
    }
  }

  lemma LiftsLength(s: seq<Ver>, s': seq<Ver>, i: nat)
    requires i < |s| && Lifts(s, s', i)
    ensures |s'| == |s|
  {
  }

  lemma StopBelow(x: seq<Dirty>, s: seq<Ver>, n: nat, k: nat, c: Option<nat>, i: nat, e: nat, z: nat, h: nat)
    requires Ordered(s, n) && Increasing(x) && z <= e < |x| && i < |s| && h < |s|
    requires x[e].version == s[i].d.version && Comes(x[z], s[h], k, c)
    ensures h <= i
  {
    if h > i { OrderedPair(s, n, i, h); }
    OrderIndex(x, e, z);
  }

  /** The stabilized version is above the last delete and is not found. */
  lemma MarkMissing(x: seq<Dirty>, s: seq<Ver>, s': seq<Ver>, n: nat, k: nat, c: Option<nat>, i: nat)
    requires Ordered(s, n) && AllKnown(x, s, k, c) && Traces(x, s, k, c)
    requires i < |s| && Open(s, i) && Lifts(s, s', i) && !Holds(x, s[i].d.version)
    requires forall a :: 0 <= a < i && Open(s, a) ==> Falls(s[a], s[i])
    ensures Traces(x, s', k, c)
  {
    hide Ordered, Traces, AllKnown, Lifts, Open, Cleared, Holds;
    LiftsLength(s, s', i);
    forall j | 0 <= j < |s'| && Open(s', j) ensures Agrees(x, s', k, c, j) {
      LiftsOpen(s, s', i, j);
      TracesAt(x, s, k, c, i);
      TracesAt(x, s, k, c, j);
      LiftsAt(s, s', i, j);
      if Cleared(x, s) { ClearLifts(x, s, s', i); }
      if j < i { OrderedPair(s, n, j, i); }
      forall m | 0 <= m < |x| && x[m].version == s[j].d.version ensures Here(s[j], k, c) {
        var h := Source(x, s, k, c, m);
        SameVersionSame(s, n, h, j);
      }
    }
    MissingDelete(x, s, s', k, c, i);
    MakeTraces(x, s', k, c);
  }

  lemma MissingDelete(x: seq<Dirty>, s: seq<Ver>, s': seq<Ver>, k: nat, c: Option<nat>, i: nat)
    requires Traces(x, s, k, c) && i < |s| && Lifts(s, s', i)
    ensures forall q: nat, m: nat :: IsTop(s', q) && m < |x| && x[m].version == s'[q].d.version ==>
      DeleteAgrees(x, s', k, c, q, m)
  {
    hide Traces, Calm, Open;
    LiftsLength(s, s', i);
    forall q: nat, m: nat | IsTop(s', q) && m < |x| && x[m].version == s'[q].d.version
      ensures DeleteAgrees(x, s', k, c, q, m)
    {
      LiftsAt(s, s', i, q);
      LiftsOpen(s, s', i, q + 1);
      TracesDelete(x, s, k, c, q, m);
      LiftsCalm(s, s', k, c, i, q);
    }
  }

  /** Nothing changes below the last delete. */
  lemma LiftsCalm(s: seq<Ver>, s': seq<Ver>, k: nat, c: Option<nat>, i: nat, q: nat)
    requires i < |s| && Lifts(s, s', i) && IsTop(s, q)
    ensures Calm(s', q, k, c) <==> Calm(s, q, k, c)
  {
    forall j | 0 <= j < q ensures Same(s[j], s'[j]) {
      LiftsAt(s, s', i, j);
      TopSplits(s, q, j);
    }
    SameBelow(s, s', k, c, q);
  }

  /** The stabilized version is below the last delete. */
  lemma MarkBelow(x: seq<Dirty>, s: seq<Ver>, s': seq<Ver>, n: nat, k: nat, c: Option<nat>, i: nat, e: nat)
    requires Ordered(s, n) && Increasing(x) && Traces(x, s, k, c) && i < |s| && !Open(s, i) && s[i].d.kind != Delete
    requires Lifts(s, s', i) && e < |x| && x[e].version == s[i].d.version
    ensures Traces(Walk(x, e), s', k, c)
  {
    hide Ordered, Traces, Lifts, Walk, Open, Cleared;
    var z := WalkStops(x, e);
    var x' := Walk(x, e);
    var q := FindTop(s, i);
    LiftsLength(s, s', i);
    forall j | 0 <= j < |s'| && Open(s', j) ensures Agrees(x', s', k, c, j) {
      LiftsOpen(s, s', i, j);
      TopSplits(s, q, j);
      BelowAgrees(x, x', s, s', n, k, c, i, e, z, j);
    }
    forall q: nat, m: nat | IsTop(s', q) && m < |x'| && x'[m].version == s'[q].d.version
      ensures DeleteAgrees(x', s', k, c, q, m)
    {
      BelowDelete(x, x', s, s', n, k, c, i, e, z, q, m);
    }
    MakeTraces(x', s', k, c);
  }

  lemma BelowAgrees(x: seq<Dirty>, x': seq<Dirty>, s: seq<Ver>, s': seq<Ver>, n: nat, k: nat, c: Option<nat>, i: nat,
          e: nat, z: nat, j: nat)
    requires Ordered(s, n) && Increasing(x) && Traces(x, s, k, c) && Walked(x, x', z, e)
    requires i < j < |s| && x[e].version == s[i].d.version && Lifts(s, s', i) && Open(s, j)
    ensures Agrees(x', s', k, c, j)
  {
    hide Ordered, Traces, Open, Cleared, Holds, Walked, Lifts, Increasing;
    LiftsAt(s, s', i, j);
    TracesAt(x, s, k, c, j);
    OrderedPair(s, n, i, j);
    if Cleared(x, s) {
      ClearLifts(x, s, s', i);
      ClearWalked(x, x', s', z, e);
    }
    AboveWalked(x, x', z, e, s[j].d.version);
    forall m | 0 <= m < |x'| && x'[m].version == s'[j].d.version ensures x'[m].state == Stable <==> Settled(s[j], k) {
      assert x'[m] in x;
    }
  }

  lemma ClearWalked(x: seq<Dirty>, x': seq<Dirty>, s: seq<Ver>, z: nat, e: nat)
    requires Walked(x, x', z, e) && Cleared(x, s)
    ensures Cleared(x', s)
  {
    forall m, g | 0 <= m < |x'| && 0 <= g < |s| ensures AboveDelete(x'[m], s[g]) {
      assert AboveDelete(x[m + Gap(x, z)], s[g]) && x'[m] == WalkedAt(x, z, e, m + Gap(x, z));
    }
  }

  /** What is above the start of the walk stays as it is. */
  lemma AboveWalked(x: seq<Dirty>, x': seq<Dirty>, z: nat, e: nat, version: nat)
    requires Increasing(x) && Walked(x, x', z, e) && x[e].version < version
    ensures Holds(x, version) ==> Holds(x', version)
    ensures forall m :: 0 <= m < |x'| && x'[m].version == version ==> x'[m] in x
  {
    hide Increasing;
    var off := Gap(x, z);
    if Holds(x, version) {
      var g :| 0 <= g < |x| && x[g].version == version;
      OrderIndex(x, e, g);
      assert x'[g - off] == WalkedAt(x, z, e, g - off + off);
    }
    forall m | 0 <= m < |x'| && x'[m].version == version ensures x'[m] in x {
      assert x'[m] == WalkedAt(x, z, e, m + off);
      OrderIndex(x, e, m + off);
      assert x[m + off] in x;
    }
  }

  lemma BelowDelete(x: seq<Dirty>, x': seq<Dirty>, s: seq<Ver>, s': seq<Ver>, n: nat, k: nat, c: Option<nat>, i: nat,
          e: nat, z: nat, q: nat, m: nat)
    requires Ordered(s, n) && Increasing(x) && Traces(x, s, k, c) && Walked(x, x', z, e)
    requires i < |s| && !Open(s, i) && s[i].d.kind != Delete && x[e].version == s[i].d.version && Lifts(s, s', i)
    requires IsTop(s', q) && m < |x'| && x'[m].version == s'[q].d.version
    ensures DeleteAgrees(x', s', k, c, q, m)
  {
    hide Ordered, Traces, Calm;
    var off := Gap(x, z);
    LiftsAt(s, s', i, q);
    LiftsOpen(s, s', i, q + 1);
    TopSplits(s, q, i);
    OrderedPair(s, n, i, q);
    assert x'[m] == WalkedAt(x, z, e, m + off);
    OrderIndex(x, e, m + off);
    TracesDelete(x, s, k, c, q, m + off);
    LiftsCalm(s, s', k, c, i, q);
    assert m > 0 && x'[m - 1] == WalkedAt(x, z, e, m - 1 + off);
  }

  lemma StabilizedLifts(s: seq<Ver>, i: nat)
    requires i < |s| && s[i].d.kind != Delete
    requires forall j :: i < j < |s| ==> s[j].d.version > s[i].d.version
    requires forall j :: 0 <= j < i ==> s[j].d.version < s[i].d.version
    ensures Lifts(s, StabilizedAt(s, i), i)
  {
    hide Open;
  }

  /** Replaying a stabilization of a version that is not a delete. */
  lemma MarkTraces(x: seq<Dirty>, s: seq<Ver>, n: nat, k: nat, c: Option<nat>, i: nat)
    requires Ordered(s, n) && Rebuilds(x, s, k, c) && Traces(x, s, k, c) && Regular(s, n)
    requires i < |s| && s[i].d.kind != Delete
    ensures Traces(MarkStable(x, s[i].d.version), StabilizedAt(s, i), k, c)
  {
    hide Ordered, Rebuilds, Traces, StabilizedAt, Walk, Open, Lifts, IndexOf;
    var s', version := StabilizedAt(s, i), s[i].d.version;
    RebuildsParts(x, s, k, c);
    NotInstant(x, s, n, k, c, s[i].d, i);
    forall j | 0 <= j < |s| && j != i ensures if j < i then s[j].d.version < version else s[j].d.version > version {
      if j < i { OrderedPair(s, n, j, i); } else { OrderedPair(s, n, i, j); }
    }
    StabilizedLifts(s, i);
    var e := IndexOf(x, version);
    if Open(s, i) {
      if e == -1 { MarkMissing(x, s, s', n, k, c, i); } else { MarkFound(x, s, s', n, k, c, i, e); }
    } else if e == -1 {
      NotFound(x, s, s', n, k, c, i);
    } else {
      MarkBelow(x, s, s', n, k, c, i, e);
    }
  }

  lemma NotFound(x: seq<Dirty>, s: seq<Ver>, s': seq<Ver>, n: nat, k: nat, c: Option<nat>, i: nat)
    requires Traces(x, s, k, c) && i < |s| && Lifts(s, s', i) && !Open(s, i)
    ensures Traces(x, s', k, c)
  {
    hide Traces, Lifts, Open, Cleared;
    LiftsLength(s, s', i);
    var q := FindTop(s, i);
    forall j | 0 <= j < |s'| && Open(s', j) ensures Agrees(x, s', k, c, j) {
      LiftsOpen(s, s', i, j);
      TopSplits(s, q, j);
      TracesAt(x, s, k, c, j);
      LiftsAt(s, s', i, j);
      if Cleared(x, s) { ClearLifts(x, s, s', i); }
    }
    MissingDelete(x, s, s', k, c, i);
    MakeTraces(x, s', k, c);
  }
}
