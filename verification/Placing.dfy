/** The journal entry by entry: each kind of entry carries the history on, whatever tail of the journal
    is replayed over whatever clean version. */
module Placing {
  import opened Basics
  import opened Overlay
  import opened Versions
  import opened Replayed
  import opened Mirror
  import opened Marking

  predicate Fresh(d: Dirty) { d.version > 0 && d.state == Synced && !d.instant }

  // ----- writes

  /** The version has a place in the history: it is new and above every delete. */
  predicate HasPlace(s: seq<Ver>, version: nat) { forall i :: 0 <= i < |s| ==> PlaceAt(s[i].d, version) }

  predicate PlaceAt(y: Dirty, version: nat) { y.version != version && (y.kind == Delete ==> y.version < version) }

  /** The journal or `dirty_db` has made something above the version stable. */
  predicate Under(s: seq<Ver>, version: nat) {
    Place(s, version) < |s| && s[Place(s, version)].d.state == Stable
  }

  function Entered(s: seq<Ver>, d: Dirty, inst: bool, n: nat): Ver {
    Ver(if inst || Under(s, d.version) then d.(state := Stable) else d, n, if inst then n + 1 else 0)
  }

  function Beneath(s: seq<Ver>, i: nat, inst: bool, n: nat): Ver
    requires i < |s|
  {
    if inst then Lifted(s[i], if Open(s, i) then n + 1 else 0) else s[i]
  }

  /** The history with one more version in its place. An instant write makes all below it stable. */
  function Insert(s: seq<Ver>, d: Dirty, inst: bool, n: nat): (r: seq<Ver>)
    ensures |r| == |s| + 1 && r[Place(s, d.version)] == Entered(s, d, inst, n)
    ensures forall i :: 0 <= i < Place(s, d.version) ==> r[i] == Beneath(s, i, inst, n)
    ensures forall i :: Place(s, d.version) <= i < |s| ==> r[i + 1] == s[i]
  {
    var p := Place(s, d.version);
    seq(|s| + 1, i requires 0 <= i <= |s| =>
      if i < p then Beneath(s, i, inst, n) else if i == p then Entered(s, d, inst, n) else s[i - 1])
  }

  /** `s'` is `s` with `v` at `p`, up to the states below it. */
  ghost predicate Inserted(s: seq<Ver>, v: Ver, p: nat, s': seq<Ver>) {
    && p <= |s| && |s'| == |s| + 1 && s'[p] == v
    && (forall i :: 0 <= i < |s| ==> (s[i].d.version > v.d.version <==> i >= p))
    && (forall i :: 0 <= i < p ==> Rises(s[i], s'[i], 0))
    && (forall i :: p <= i < |s| ==> s'[i + 1] == s[i])
  }

  lemma InsertShape(s: seq<Ver>, d: Dirty, inst: bool, n: nat)
    requires Ordered(s, n) && HasPlace(s, d.version)
    ensures Inserted(s, Entered(s, d, inst, n), Place(s, d.version), Insert(s, d, inst, n))
    ensures inst ==> Raises(Insert(s, d, inst, n), Insert(s, d, inst, n), d.version)
  {
    hide Ordered, Place, Insert, Open;
    var p, v, s' := Place(s, d.version), Entered(s, d, inst, n), Insert(s, d, inst, n);
    PlaceSplits(s, n, d.version);
    forall i | 0 <= i < |s| ensures s[i].d.version > v.d.version <==> i >= p {
      assert PlaceAt(s[i].d, d.version);
    }
    forall i | 0 <= i < p ensures Rises(s[i], s'[i], 0) { OrderedAt(s, n, i); }
    if inst {
      forall i | 0 <= i < |s'| ensures Rises(s'[i], s'[i], d.version) {
        if i > p { assert s'[i - 1 + 1] == s[i - 1]; }
      }
    }
  }

  lemma InsertOrdered(s: seq<Ver>, d: Dirty, inst: bool, n: nat)
    requires Ordered(s, n) && Fresh(d) && d.kind != Delete && HasPlace(s, d.version)
    ensures Ordered(Insert(s, d, inst, n), n + 1)
  {
    hide Insert, Ordered, HasPlace;
    var p, v, s' := Place(s, d.version), Entered(s, d, inst, n), Insert(s, d, inst, n);
    InsertShape(s, d, inst, n);
    forall i | 0 <= i < |s'| ensures Proper(s'[i], n + 1) { InsertProper(s, n, v, p, s', i); }
    forall i, j | 0 <= i < j < |s'| ensures Follows(s'[i], s'[j]) { InsertFollows(s, d, inst, n, i, j); }
    MakeOrdered(s', n + 1);
  }

  lemma MakeOrdered(s: seq<Ver>, n: nat)
    requires forall i :: 0 <= i < |s| ==> Proper(s[i], n)
    requires forall i, j {:trigger Follows(s[i], s[j])} :: 0 <= i < j < |s| ==> Follows(s[i], s[j])
    ensures Ordered(s, n)
  {
  }

  lemma InsertProper(s: seq<Ver>, n: nat, v: Ver, p: nat, s': seq<Ver>, i: nat)
    requires Ordered(s, n) && Inserted(s, v, p, s') && Proper(v, n + 1) && i < |s'|
    ensures Proper(s'[i], n + 1)
  {
    if i < p {
      OrderedAt(s, n, i);
      assert Rises(s[i], s'[i], 0);
    } else if i > p {
      OrderedAt(s, n, i - 1);
      assert s'[i - 1 + 1] == s[i - 1];
    }
  }

  lemma InsertFollows(s: seq<Ver>, d: Dirty, inst: bool, n: nat, i: nat, j: nat)
    requires Ordered(s, n) && Fresh(d) && d.kind != Delete && HasPlace(s, d.version) && i < j <= |s|
    ensures Follows(Insert(s, d, inst, n)[i], Insert(s, d, inst, n)[j])
  {
    hide Ordered, Place, Insert, Open, HasPlace;
    var p := Place(s, d.version);
    PlaceSplits(s, n, d.version);
    if i < p && j < p {
      OrderedPair(s, n, i, j);
    } else if i == p {
      OverNew(s, d, inst, n, j - 1);
    } else if j == p {
      UnderNew(s, d, inst, n, i);
    } else {
      OrderedPair(s, n, if i < p then i else i - 1, j - 1);
      assert Insert(s, d, inst, n)[j - 1 + 1] == s[j - 1];
      assert i > p ==> Insert(s, d, inst, n)[i - 1 + 1] == s[i - 1];
    }
  }

  lemma UnderNew(s: seq<Ver>, d: Dirty, inst: bool, n: nat, i: nat)
    requires Ordered(s, n) && HasPlace(s, d.version) && i < Place(s, d.version) && d.state == Synced && d.kind != Delete
    ensures Follows(Beneath(s, i, inst, n), Entered(s, d, inst, n))
  {
    hide Ordered, Place, Open, HasPlace;
    var p := Place(s, d.version);
    PlaceSplits(s, n, d.version);
    OrderedAt(s, n, i);
    if Under(s, d.version) { OrderedPair(s, n, i, p); }
  }

  lemma OverNew(s: seq<Ver>, d: Dirty, inst: bool, n: nat, j: nat)
    requires Ordered(s, n) && HasPlace(s, d.version) && Place(s, d.version) <= j < |s| && d.kind != Delete
    ensures Follows(Entered(s, d, inst, n), s[j])
  {
    hide Ordered, Place;
    var p := Place(s, d.version);
    PlaceSplits(s, n, d.version);
    assert PlaceAt(s[j].d, d.version);
    if p < j { OrderedPair(s, n, p, j); }
  }

  lemma {:induction false} EmplaceLast(x: seq<Dirty>, d: Dirty)
    requires x != []
    ensures Last(x).version < d.version ==> Emplace(x, d) == x + [d]
    ensures Last(x).version > d.version ==> Emplace(x, d) == Emplace(Front(x), d) + [Last(x)]
  {
  }

  /** Where a new version goes in a replayed stack. */
  lemma {:induction false} EmplaceSplit(x: seq<Dirty>, d: Dirty) returns (i: nat)
    requires Increasing(x) && forall j :: 0 <= j < |x| ==> x[j].version != d.version
    ensures i <= |x| && Emplace(x, d) == x[..i] + [d] + x[i..]
    ensures forall j :: 0 <= j < |x| ==> (x[j].version > d.version <==> j >= i)
    decreases |x|
  {
    hide Emplace;
    if x != [] && Last(x).version > d.version {
      i := EmplaceSplit(Front(x), d);
      EmplaceLast(x, d);
      SplitSnoc(x, d, i);
      forall j | 0 <= j < |x| ensures x[j].version > d.version <==> j >= i {
        if j < |x| - 1 { assert Front(x)[j] == x[j]; }
      }
    } else {
      i := |x|;
      EmplaceTop(x, d);
    }
  }

  lemma SplitSnoc(x: seq<Dirty>, d: Dirty, i: nat)
    requires x != [] && i < |x|
    ensures Front(x)[..i] + [d] + Front(x)[i..] + [Last(x)] == x[..i] + [d] + x[i..]
  {
  }

  lemma EmplaceTop(x: seq<Dirty>, d: Dirty)
    requires Increasing(x) && forall j :: 0 <= j < |x| ==> x[j].version != d.version
    requires x == [] || Last(x).version <= d.version
    ensures Emplace(x, d) == x[..|x|] + [d] + x[|x|..]
    ensures forall j :: 0 <= j < |x| ==> x[j].version < d.version
  {
    if x != [] {
      assert x[|x| - 1].version != d.version;
      EmplaceLast(x, d);
    }
  }

  lemma NewVersion(x: seq<Dirty>, s: seq<Ver>, version: nat, k: nat, c: Option<nat>)
    requires AllKnown(x, s, k, c) && HasPlace(s, version)
    ensures forall i :: 0 <= i < |x| ==> x[i].version != version
    ensures x != [] && Last(x).version >= version ==> Last(x).kind != Delete
  {
    forall m | 0 <= m < |x| ensures x[m].version != version && (x[m].kind == Delete ==> x[m].version < version) {
      var i := Source(x, s, k, c, m);
      assert PlaceAt(s[i].d, version);
    }
  }

  /** What `dirty_db.emplace` makes of a replayed stack. */
  lemma EmplaceRebuilds(x: seq<Dirty>, s: seq<Ver>, d: Dirty, v: Ver, p: nat, s': seq<Ver>, k: nat, c: Option<nat>)
    requires Rebuilds(x, s, k, c) && HasPlace(s, d.version) && Inserted(s, v, p, s')
    requires Fresh(d) && d.kind != Delete && v.d == d.(state := v.d.state) && Done(v.d) && v.at >= k
    ensures Rebuilds(if Old(d, c) then x else Emplace(x, d), s', k, c)
  {
    hide Known, Accounted, Inserted, HasPlace, Emplace;
    NewVersion(x, s, d.version, k, c);
    if Old(d, c) {
      LargerHistory(x, s, v, p, s', k, c);
      forall i | 0 <= i < |s'| && Here(s'[i], k, c) ensures Accounted(x, s', i, k, c) {
        InsertedAccounted(x, x, s, v, p, s', k, c, i);
      }
    } else {
      var e := EmplaceSplit(x, d);
      var x' := x[..e] + [d] + x[e..];
      LargerStack(x, d, e);
      LargerHistory(x, s, v, p, s', k, c);
      forall m | 0 <= m < |x'| ensures Known(x'[m], s', k, c) {
        if m == e { KnownNew(d, s, v, p, s', k, c); }
        if m > e { assert x'[m] == x[m - 1]; }
      }
      forall i | 0 <= i < |s'| && Here(s'[i], k, c) ensures Accounted(x', s', i, k, c) {
        InsertedAccounted(x, x', s, v, p, s', k, c, i);
      }
      if c.None? { InsertedWipes(x, d, e, s, v, p, s', k, c); }
    }
  }

  lemma LargerStack(x: seq<Dirty>, d: Dirty, e: nat)
    requires Increasing(x) && e <= |x|
    requires forall j :: 0 <= j < |x| ==> (x[j].version > d.version <==> j >= e) && x[j].version != d.version
    ensures Increasing(x[..e] + [d] + x[e..])
    ensures Larger(x, x[..e] + [d] + x[e..]) && Holds(x[..e] + [d] + x[e..], d.version)
  {
    var x' := x[..e] + [d] + x[e..];
    assert x'[e] == d;
    forall i, j | 0 <= i < j < |x'| ensures x'[i].version < x'[j].version {
      if i > e { assert x'[i] == x[i - 1]; }
      if j > e { assert x'[j] == x[j - 1]; }
    }
    forall i | 0 <= i < |x| ensures x[i] in x' {
      assert if i < e then x'[i] == x[i] else x'[i + 1] == x[i];
    }
  }

  /** All of `x` is in `x'`. */
  ghost predicate Larger(x: seq<Dirty>, x': seq<Dirty>) { forall i :: 0 <= i < |x| ==> x[i] in x' }

  lemma LargerHolds(x: seq<Dirty>, x': seq<Dirty>, version: nat)
    requires Larger(x, x')
    ensures Holds(x, version) ==> Holds(x', version)
    ensures Veiled(x, version) ==> Veiled(x', version)
  {
    if Holds(x, version) {
      var i :| 0 <= i < |x| && x[i].version == version;
      var j :| 0 <= j < |x'| && x'[j] == x[i];
    }
    if Veiled(x, version) {
      var i :| 0 <= i < |x| && Veils(x[i], version);
      var j :| 0 <= j < |x'| && x'[j] == x[i];
    }
  }

  lemma LargerHistory(x: seq<Dirty>, s: seq<Ver>, v: Ver, p: nat, s': seq<Ver>, k: nat, c: Option<nat>)
    requires AllKnown(x, s, k, c) && NoneWiped(x, s, k, c) && Inserted(s, v, p, s') && v.d.kind != Delete
    ensures AllKnown(x, s', k, c) && NoneWiped(x, s', k, c)
  {
    forall m | 0 <= m < |x| ensures Known(x[m], s', k, c) {
      var i := Source(x, s, k, c, m);
      if i < p {
        assert Rises(s[i], s'[i], 0) && Comes(x[m], s'[i], k, c);
      } else {
        assert Comes(x[m], s'[i + 1], k, c);
      }
    }
    if c.None? {
      forall m, j | 0 <= m < |x| && 0 <= j < |s'| && Wipes(s'[j], k) ensures x[m].version > s'[j].d.version {
        if j < p { assert Rises(s[j], s'[j], 0) && Wipes(s[j], k); }
        if j > p { assert s'[j - 1 + 1] == s[j - 1] && Wipes(s[j - 1], k); }
      }
    }
  }

  lemma KnownNew(d: Dirty, s: seq<Ver>, v: Ver, p: nat, s': seq<Ver>, k: nat, c: Option<nat>)
    requires Inserted(s, v, p, s') && v.d == d.(state := v.d.state) && Fresh(d) && v.at >= k && !Old(d, c)
    ensures Known(d, s', k, c)
  {
    assert Comes(d, s'[p], k, c);
  }

  lemma InsertedAccounted(x: seq<Dirty>, x': seq<Dirty>, s: seq<Ver>, v: Ver, p: nat, s': seq<Ver>, k: nat,
          c: Option<nat>, i: nat)
    requires AllAccounted(x, s, k, c) && Larger(x, x') && Inserted(s, v, p, s') && i < |s'| && Here(s'[i], k, c)
    requires !Old(v.d, c) ==> Holds(x', v.d.version)
    ensures Accounted(x', s', i, k, c)
  {
    hide Holds, Veiled;
    if i != p {
      var a: nat := if i < p then i else i - 1;
      assert i < p ==> Rises(s[i], s'[i], 0);
      assert i > p ==> s'[a + 1] == s[a];
      assert Here(s[a], k, c) && Accounted(x, s, a, k, c);
      LargerHolds(x, x', s[a].d.version);
      if Wiped(s, a, k, c) {
        var j :| a <= j < |s| && Wipes(s[j], k);
        if j < p { assert Rises(s[j], s'[j], 0) && Wipes(s'[j], k); } else { assert Wipes(s'[j + 1], k); }
      }
    }
  }

  lemma InsertedWipes(x: seq<Dirty>, d: Dirty, e: nat, s: seq<Ver>, v: Ver, p: nat, s': seq<Ver>, k: nat,
          c: Option<nat>)
    requires NoneWiped(x, s', k, c) && c.None? && e <= |x| && HasPlace(s, d.version) && Inserted(s, v, p, s')
    requires v.d == d.(state := v.d.state)
    requires v.d.kind != Delete
    ensures NoneWiped(x[..e] + [d] + x[e..], s', k, c)
  {
    var x' := x[..e] + [d] + x[e..];
    forall m, j | 0 <= m < |x'| && 0 <= j < |s'| && Wipes(s'[j], k) ensures x'[m].version > s'[j].d.version {
      if m == e {
        if j < p { assert Rises(s[j], s'[j], 0) && PlaceAt(s[j].d, d.version); }
        if j > p { assert s'[j - 1 + 1] == s[j - 1] && PlaceAt(s[j - 1].d, d.version); }
      }
      if m > e { assert x'[m] == x[m - 1]; }
    }
  }

  /** The entry of a write. */
  function WriteEntry(d: Dirty, inst: bool): Entry { if d.kind == BigWrite then JBig(d, inst) else JSmall(d, inst) }

  lemma WriteRebuilds(x: seq<Dirty>, s: seq<Ver>, d: Dirty, inst: bool, n: nat, k: nat, c: Option<nat>)
    requires Ordered(s, n) && Rebuilds(x, s, k, c) && Fresh(d) && d.kind != Delete && HasPlace(s, d.version) && k <= n
    ensures Rebuilds(ReplayEntry(x, c, WriteEntry(d, inst)), Insert(s, d, inst, n), k, c)
  {
    hide Ordered, Rebuilds, Insert, Emplace, MarkStable, HasPlace, Raises, Inserted;
    var s' := Insert(s, d, inst, n);
    RebuildsParts(x, s, k, c);
    NewVersion(x, s, d.version, k, c);
    InsertShape(s, d, inst, n);
    EmplaceRebuilds(x, s, d, Entered(s, d, inst, n), Place(s, d.version), s', k, c);
    if !Old(d, c) && inst {
      var x' := Emplace(x, d);
      RebuildsParts(x', s', k, c);
      KnownDone(x', s', k, c);
      InsertOrdered(s, d, inst, n);
      assert s'[Place(s, d.version)].d.version == d.version;
      NotInstant(x', s', n + 1, k, c, d, Place(s, d.version));
      MarkThins(x', d.version, d.version);
      ThinnedRebuilds(x', MarkStable(x', d.version), d.version, s', s', k, c);
    }
  }

  /** The version of a write in a replayed stack is not an instant one. */
  lemma NotInstant(x: seq<Dirty>, s: seq<Ver>, n: nat, k: nat, c: Option<nat>, d: Dirty,
          i: nat)
    requires Ordered(s, n) && AllKnown(x, s, k, c) && d.kind != Delete
    requires i < |s| && s[i].d.version == d.version && s[i].d.kind == d.kind
    ensures forall m :: 0 <= m < |x| && x[m].version == d.version ==> !x[m].IsInstant()
  {
    forall m | 0 <= m < |x| && x[m].version == d.version ensures !x[m].IsInstant() {
      var j := Source(x, s, k, c, m);
      SameVersionSame(s, n, i, j);
      OrderedAt(s, n, j);
    }
  }

  // ----- deletes

  /** The history with a delete on top. It counts as stable at once, together with what it deletes. */
  function WithDelete(s: seq<Ver>, d: Dirty, n: nat): (r: seq<Ver>)
    ensures |r| == |s| + 1
  {
    Raise(s, d.version, 0) + [Ver(d.(state := Stable), n, 0)]
  }

  predicate OnTop(s: seq<Ver>, version: nat) { s == [] || Last(s).d.version < version }

  lemma BelowTop(s: seq<Ver>, n: nat, version: nat)
    requires Ordered(s, n) && OnTop(s, version)
    ensures forall i :: 0 <= i < |s| ==> s[i].d.version < version
  {
    forall i | 0 <= i < |s| ensures s[i].d.version < version {
      if i < |s| - 1 { OrderedPair(s, n, i, |s| - 1); }
    }
  }

  lemma DeleteOrdered(s: seq<Ver>, d: Dirty, n: nat)
    requires Ordered(s, n) && Fresh(d) && d.kind == Delete && OnTop(s, d.version)
    ensures Ordered(WithDelete(s, d, n), n + 1)
  {
    var s' := WithDelete(s, d, n);
    BelowTop(s, n, d.version);
    RaiseOrdered(s, n, d.version, 0);
    var r := Raise(s, d.version, 0);
    forall i | 0 <= i < |s'| ensures Proper(s'[i], n + 1) { if i < |s| { OrderedAt(r, n, i); } }
    forall i, j | 0 <= i < j < |s'| ensures Follows(s'[i], s'[j]) {
      OrderedAt(r, n, i);
      if j < |s| { OrderedPair(r, n, i, j); }
    }
  }

  lemma DeleteRebuilds(x: seq<Dirty>, s: seq<Ver>, d: Dirty, n: nat, k: nat, c: Option<nat>)
    requires Ordered(s, n) && Rebuilds(x, s, k, c) && Fresh(d) && d.kind == Delete && OnTop(s, d.version) && k <= n
    ensures Rebuilds(ReplayEntry(x, c, JDelete(d)), WithDelete(s, d, n), k, c)
  {
    hide Ordered, Rebuilds, Emplace, MarkStable, WithDelete;
    var s' := WithDelete(s, d, n);
    RebuildsParts(x, s, k, c);
    BelowTop(s, n, d.version);
    if c.None? {
      DeletedNothing(s, d, n, k);
    } else if Old(d, c) {
      OldNothing(x, s, n, k, c, d.version);
      OldDelete(s, d, n, k, c);
    } else {
      TopDelete(x, s, d, n, k, c);
      var x' := x + [d];
      RebuildsParts(x', s', k, c);
      KnownDone(x', s', k, c);
      assert Last(x') == d;
      OnlyLast(x', d.version);
      MarkThins(x', d.version, d.version);
      DeleteRaises(s, d, n);
      ThinnedRebuilds(x', MarkStable(x', d.version), d.version, s', s', k, c);
    }
  }

  lemma OnlyLast(x: seq<Dirty>, version: nat)
    requires Increasing(x) && x != [] && Last(x).version == version
    ensures forall i :: 0 <= i < |x| && x[i].version == version ==> i == |x| - 1
  {
  }

  lemma DeleteRaises(s: seq<Ver>, d: Dirty, n: nat)
    requires forall i :: 0 <= i < |s| ==> s[i].d.version < d.version
    ensures var s' := WithDelete(s, d, n); Raises(s', s', d.version) && Raises(s, Raise(s, d.version, 0), d.version)
  {
    var s' := WithDelete(s, d, n);
    forall i | 0 <= i < |s'| ensures Rises(s'[i], s'[i], d.version) {
      assert i < |s| ==> s'[i] == Raise(s, d.version, 0)[i];
    }
  }

  lemma DeletedNothing(s: seq<Ver>, d: Dirty, n: nat, k: nat)
    requires d.kind == Delete && k <= n
    ensures Rebuilds([], WithDelete(s, d, n), k, None)
  {
    var s' := WithDelete(s, d, n);
    assert Wipes(s'[|s|], k);
  }

  lemma OldNothing(x: seq<Dirty>, s: seq<Ver>, n: nat, k: nat, c: Option<nat>, version: nat)
    requires AllKnown(x, s, k, c) && c.Some? && version <= c.value
    requires forall i :: 0 <= i < |s| ==> s[i].d.version <= version
    ensures x == []
  {
    NothingHere(x, s, k, c);
  }

  lemma OldDelete(s: seq<Ver>, d: Dirty, n: nat, k: nat, c: Option<nat>)
    requires Old(d, c) && forall i :: 0 <= i < |s| ==> s[i].d.version < d.version
    ensures Rebuilds([], WithDelete(s, d, n), k, c)
  {
    var s' := WithDelete(s, d, n);
    forall i | 0 <= i < |s'| ensures !Here(s'[i], k, c) { assert i < |s| ==> s'[i] == Raise(s, d.version, 0)[i]; }
    RebuildsNothing(s', k, c);
  }

  /** The delete goes on top of the stack. */
  lemma TopDelete(x: seq<Dirty>, s: seq<Ver>, d: Dirty, n: nat, k: nat, c: Option<nat>)
    requires Ordered(s, n) && Rebuilds(x, s, k, c) && Fresh(d) && d.kind == Delete && k <= n && c.Some? && !Old(d, c)
    requires forall i :: 0 <= i < |s| ==> s[i].d.version < d.version
    ensures Emplace(x, d) == x + [d] && Rebuilds(x + [d], WithDelete(s, d, n), k, c)
  {
    hide Accounted, Known, Ordered, Emplace;
    var s', x', r := WithDelete(s, d, n), x + [d], Raise(s, d.version, 0);
    BelowLast(x, s, n, k, c);
    if x != [] { EmplaceLast(x, d); } else { EmplaceTop(x, d); }
    DeleteRaises(s, d, n);
    RaisedRebuilds(x, s, r, d.version, k, c);
    forall m | 0 <= m < |x'| ensures Known(x'[m], s', k, c) { TopKnown(x, r, d, n, k, c, m); }
    forall i | 0 <= i < |s'| && Here(s'[i], k, c) ensures Accounted(x', s', i, k, c) {
      TopAccounted(x, r, d, n, k, c, i);
    }
  }

  lemma TopKnown(x: seq<Dirty>, r: seq<Ver>, d: Dirty, n: nat, k: nat, c: Option<nat>, m: nat)
    requires AllKnown(x, r, k, c) && m <= |x| && k <= n && !Old(d, c) && Fresh(d)
    ensures Known((x + [d])[m], r + [Ver(d.(state := Stable), n, 0)], k, c)
  {
    var s' := r + [Ver(d.(state := Stable), n, 0)];
    if m < |x| {
      var i := Source(x, r, k, c, m);
      assert Comes(x[m], s'[i], k, c);
    } else {
      assert Comes(d, s'[|r|], k, c);
    }
  }

  lemma TopAccounted(x: seq<Dirty>, r: seq<Ver>, d: Dirty, n: nat, k: nat, c: Option<nat>, i: nat)
    requires AllAccounted(x, r, k, c) && i <= |r| && c.Some?
    requires Here((r + [Ver(d.(state := Stable), n, 0)])[i], k, c)
    ensures Accounted(x + [d], r + [Ver(d.(state := Stable), n, 0)], i, k, c)
  {
    var x' := x + [d];
    if i < |r| {
      assert Accounted(x, r, i, k, c);
      forall m | 0 <= m < |x| ensures x[m] in x' { assert x'[m] == x[m]; }
      LargerHolds(x, x', r[i].d.version);
    } else {
      assert x'[|x|].version == d.version;
    }
  }

  // ----- a write over a flushed delete that is numbered below it

  /** Over a delete nothing is replayed, or the delete is on top. */
  lemma OverDelete(x: seq<Dirty>, s: seq<Ver>, n: nat, k: nat, c: Option<nat>)
    requires s != [] && Ordered(s, n) && Last(s).d.kind == Delete && Rebuilds(x, s, k, c)
    ensures x != [] ==> Last(x).version == Last(s).d.version && Last(x).kind == Delete
  {
    var q := |s| - 1;
    BelowLast(x, s, n, k, c);
    if x != [] {
      var i := Source(x, s, k, c, |x| - 1);
      if i < q {
        OrderedPair(s, n, i, q);
        DeleteThere(x, s, k, c, q);
      }
    }
  }

  lemma DeleteThere(x: seq<Dirty>, s: seq<Ver>, k: nat, c: Option<nat>, q: nat)
    requires q < |s| && Here(s[q], k, c) && s[q].d.kind == Delete && Rebuilds(x, s, k, c) && x != []
    ensures Last(x).version >= s[q].d.version
  {
    assert Accounted(x, s, q, k, c);
    if c.None? {
      assert Wipes(s[q], k) && x[|x| - 1].version > s[q].d.version;
    } else {
      var m :| 0 <= m < |x| && x[m].version >= s[q].d.version;
      assert m < |x| - 1 ==> x[m].version < x[|x| - 1].version;
    }
  }

  lemma RenewRebuilds(x: seq<Dirty>, s: seq<Ver>, d: Dirty, inst: bool, n: nat, k: nat, c: Option<nat>)
    requires s != [] && Ordered(s, n) && Rebuilds(x, s, k, c) && Last(s).d.kind == Delete
    requires Fresh(d) && d.kind == BigWrite && k <= n && d.version <= Last(s).d.version
    ensures Rebuilds(ReplayEntry(x, c, JBig(d, inst)), Insert([], d, inst, n), k, c)
  {
    hide Ordered, Rebuilds, Emplace, MarkStable, Insert;
    OverDelete(x, s, n, k, c);
    EmptyMirror(n, k, c);
    WriteRebuilds([], [], d, inst, n, k, c);
  }

  lemma EmptyMirror(n: nat, k: nat, c: Option<nat>)
    ensures Ordered([], n) && Rebuilds([], [], k, c)
  {
    RebuildsNothing([], k, c);
  }

  // ----- a whole journal

  /** Appending the entry takes the history `s` to `s'`. */
  ghost predicate Carries(e: Entry, s: seq<Ver>, s': seq<Ver>, n: nat) {
    && Ordered(s', n + 1)
    && forall x, k: nat, c: Option<nat> {:trigger Rebuilds(x, s, k, c)} ::
         k <= n && Rebuilds(x, s, k, c) ==> Rebuilds(ReplayEntry(x, c, e), s', k, c)
  }

  lemma MirrorsEmpty()
    ensures Mirrors([], [])
  {
    forall k: nat, c: Option<nat> | k <= 0 ensures Rebuilds(ReplayLog([][k..], c), [], k, c) {
      EmptyMirror(0, k, c);
    }
  }

  lemma LaterNothing(s: seq<Ver>, n: nat, k: nat, c: Option<nat>)
    requires Ordered(s, n) && n <= k
    ensures Rebuilds([], s, k, c)
  {
    forall i | 0 <= i < |s| ensures !Here(s[i], k, c) { OrderedAt(s, n, i); }
    RebuildsNothing(s, k, c);
  }

  lemma MirrorsSnoc(log: seq<Entry>, s: seq<Ver>, e: Entry, s': seq<Ver>)
    requires Mirrors(log, s) && Carries(e, s, s', |log|)
    ensures Mirrors(log + [e], s')
  {
    hide Ordered, Rebuilds, ReplayEntry;
    var log' := log + [e];
    forall k: nat, c: Option<nat> | k <= |log'| ensures Rebuilds(ReplayLog(log'[k..], c), s', k, c) {
      if k <= |log| {
        assert log'[k..] == log[k..] + [e] && (log[k..] + [e])[..|log| - k] == log[k..];
        assert Rebuilds(ReplayLog(log[k..], c), s, k, c);
      } else {
        LaterNothing(s', |log'|, k, c);
      }
    }
  }

  /** More of the history becomes stable without a journal entry. */
  lemma MirrorsRaised(log: seq<Entry>, s: seq<Ver>, top: nat)
    requires Mirrors(log, s)
    ensures Mirrors(log, Raise(s, top, 0))
  {
    hide Ordered, Rebuilds, Raises;
    var s' := Raise(s, top, 0);
    RaiseOrdered(s, |log|, top, 0);
    RaiseRaises(s, top, 0);
    forall k: nat, c: Option<nat> | k <= |log| ensures Rebuilds(ReplayLog(log[k..], c), s', k, c) {
      RaisedRebuilds(ReplayLog(log[k..], c), s, s', top, k, c);
    }
  }

  /** A write above the deletes, in any order. */
  lemma WriteCarries(s: seq<Ver>, d: Dirty, inst: bool, n: nat)
    requires Ordered(s, n) && Fresh(d) && d.kind != Delete && HasPlace(s, d.version)
    ensures Carries(WriteEntry(d, inst), s, Insert(s, d, inst, n), n)
  {
    hide Ordered, Rebuilds, Insert, HasPlace, ReplayEntry;
    InsertOrdered(s, d, inst, n);
    forall x, k: nat, c: Option<nat> | k <= n && Rebuilds(x, s, k, c)
      ensures Rebuilds(ReplayEntry(x, c, WriteEntry(d, inst)), Insert(s, d, inst, n), k, c)
    {
      WriteRebuilds(x, s, d, inst, n, k, c);
    }
  }

  lemma RenewCarries(s: seq<Ver>, d: Dirty, inst: bool, n: nat)
    requires s != [] && Ordered(s, n) && Last(s).d.kind == Delete && d.version <= Last(s).d.version
    requires Fresh(d) && d.kind == BigWrite
    ensures Carries(JBig(d, inst), s, Insert([], d, inst, n), n)
  {
    hide Ordered, Rebuilds, Insert, ReplayEntry;
    EmptyMirror(n, 0, None);
    InsertOrdered([], d, inst, n);
    forall x, k: nat, c: Option<nat> | k <= n && Rebuilds(x, s, k, c)
      ensures Rebuilds(ReplayEntry(x, c, JBig(d, inst)), Insert([], d, inst, n), k, c)
    {
      RenewRebuilds(x, s, d, inst, n, k, c);
    }
  }

  /** A delete over whatever is there, stable or not. */
  lemma DeleteCarries(s: seq<Ver>, d: Dirty, n: nat)
    requires Ordered(s, n) && Fresh(d) && d.kind == Delete && OnTop(s, d.version)
    ensures Carries(JDelete(d), s, WithDelete(s, d, n), n)
  {
    hide Ordered, Rebuilds, WithDelete, ReplayEntry;
    DeleteOrdered(s, d, n);
    forall x, k: nat, c: Option<nat> | k <= n && Rebuilds(x, s, k, c)
      ensures Rebuilds(ReplayEntry(x, c, JDelete(d)), WithDelete(s, d, n), k, c)
    {
      DeleteRebuilds(x, s, d, n, k, c);
    }
  }

  /** The history after a stabilization of version `s[i]`. That of a delete may take along what is above. */
  function StabilizedAt(s: seq<Ver>, i: nat): (r: seq<Ver>)
    requires i < |s|
    ensures |r| == |s|
  {
    if s[i].d.kind == Delete then Raise(s, Last(s).d.version, 0) else Raise(s, s[i].d.version, s[i].at + 1)
  }

  lemma StabilizeRebuilds(x: seq<Dirty>, s: seq<Ver>, i: nat, n: nat, k: nat, c: Option<nat>)
    requires Ordered(s, n) && i < |s| && Rebuilds(x, s, k, c)
    ensures Rebuilds(MarkStable(x, s[i].d.version), StabilizedAt(s, i), k, c)
  {
    hide Ordered, Rebuilds, MarkStable, Raises;
    var version := s[i].d.version;
    var top := if s[i].d.kind == Delete then Last(s).d.version else version;
    RebuildsParts(x, s, k, c);
    KnownDone(x, s, k, c);
    BelowLast(x, s, n, k, c);
    if s[i].d.kind != Delete { NotInstant(x, s, n, k, c, s[i].d, i); }
    if i < |s| - 1 { OrderedPair(s, n, i, |s| - 1); }
    MarkThins(x, version, top);
    RaiseRaises(s, top, 0);
    RaiseRaises(s, top, s[i].at + 1);
    ThinnedRebuilds(x, MarkStable(x, version), top, s, StabilizedAt(s, i), k, c);
  }

  lemma StabilizeCarries(s: seq<Ver>, i: nat, n: nat)
    requires Ordered(s, n) && i < |s|
    ensures Carries(JStable(s[i].d.version), s, StabilizedAt(s, i), n)
  {
    hide Ordered, Rebuilds, MarkStable, StabilizedAt;
    assert Ordered(StabilizedAt(s, i), n + 1) by { StabilizedOrdered(s, i, n); }
    forall x, k: nat, c: Option<nat> | k <= n && Rebuilds(x, s, k, c)
      ensures Rebuilds(ReplayEntry(x, c, JStable(s[i].d.version)), StabilizedAt(s, i), k, c)
    {
      StabilizeRebuilds(x, s, i, n, k, c);
    }
  }

  lemma StabilizedOrdered(s: seq<Ver>, i: nat, n: nat)
    requires Ordered(s, n) && i < |s|
    ensures Ordered(StabilizedAt(s, i), n + 1)
  {
    hide Ordered;
    RaiseOrdered(s, n, Last(s).d.version, 0);
    RaiseOrdered(s, n, s[i].d.version, s[i].at + 1);
    OrderedLater(StabilizedAt(s, i), n, n + 1);
  }

  /** A rollback that drops nothing which has ever been stable. */
  lemma RollbackCarries(s: seq<Ver>, version: nat, n: nat)
    requires Ordered(s, n) && MayDrop(s, version)
    ensures Carries(JRollback(version), s, Dropped(s, version), n)
  {
    hide Ordered, Rebuilds, RolledBack, Dropped, MayDrop;
    DroppedShape(s, version, n);
    OrderedLater(Dropped(s, version), n, n + 1);
    forall x, k: nat, c: Option<nat> | k <= n && Rebuilds(x, s, k, c)
      ensures Rebuilds(ReplayEntry(x, c, JRollback(version)), Dropped(s, version), k, c)
    {
      DropRebuilds(x, s, version, n, k, c);
    }
  }
}
