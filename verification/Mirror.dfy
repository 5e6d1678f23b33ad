/** What the replay of any tail of the journal rebuilds, for every clean version that may be found
    on disk at that moment. A big write is journaled when its data is on disk, so the entries of an
    object need not be in the order of its versions. */
module Mirror {
  import opened Basics
  import opened Overlay
  import opened Versions
  import opened Replayed

  /** A version together with the position `at` of its entry in the journal. Its state is `Stable` as
      soon as a journal entry or `dirty_db` has ever made it so. `mark` is one more than the highest
      position of an entry of a version by whose stabilization the journal has made this one stable,
      and 0 if the journal has not. */
  datatype Ver = Ver(d: Dirty, at: nat, mark: nat)

  function Dirties(s: seq<Ver>): (r: seq<Dirty>)
    ensures |r| == |s| && forall i :: 0 <= i < |s| ==> r[i] == s[i].d
  {
    seq(|s|, i requires 0 <= i < |s| => s[i].d)
  }

  // ----- the history of an object

  predicate Proper(v: Ver, n: nat) {
    && v.d.version > 0 && v.at < n && !v.d.instant
    && (v.d.state == Synced || v.d.state == Stable)
    && (v.d.kind == Delete ==> v.d.state == Stable)
  }

  /** `b` is above `a`: below a stable version all is stable, and a delete parts the journal. */
  predicate Follows(a: Ver, b: Ver) {
    && a.d.version < b.d.version
    && (b.d.state == Stable ==> a.d.state == Stable)
    && (a.d.kind == Delete || b.d.kind == Delete ==> a.at < b.at)
  }

  /** The journaled versions of an object since it was last created. `n` bounds the journal positions. */
  ghost predicate Ordered(s: seq<Ver>, n: nat) {
    && (forall i :: 0 <= i < |s| ==> Proper(s[i], n))
    && (forall i, j {:trigger Follows(s[i], s[j])} :: 0 <= i < j < |s| ==> Follows(s[i], s[j]))
  }

  lemma OrderedAt(s: seq<Ver>, n: nat, i: nat)
    requires Ordered(s, n) && i < |s|
    ensures Proper(s[i], n)
  {
  }

  lemma OrderedPair(s: seq<Ver>, n: nat, i: nat, j: nat)
    requires Ordered(s, n) && i < j < |s|
    ensures Follows(s[i], s[j])
  {
  }

  /** Versions tell the positions of a history apart. */
  lemma SameVersionSame(s: seq<Ver>, n: nat, i: nat, j: nat)
    requires Ordered(s, n) && i < |s| && j < |s| && s[i].d.version == s[j].d.version
    ensures i == j
  {
    if i < j { OrderedPair(s, n, i, j); }
    if j < i { OrderedPair(s, n, j, i); }
  }

  lemma OrderedLater(s: seq<Ver>, n: nat, n': nat)
    requires Ordered(s, n) && n <= n'
    ensures Ordered(s, n')
  {
  }

  /** How many versions are below the given one. */
  function Place(s: seq<Ver>, version: nat): (p: nat)
    ensures p <= |s| && (p > 0 ==> s[p - 1].d.version < version)
    ensures forall i :: p <= i < |s| ==> s[i].d.version >= version
    decreases |s|
  {
    if s == [] || Last(s).d.version < version then |s| else Place(Front(s), version)
  }

  lemma PlaceSplits(s: seq<Ver>, n: nat, version: nat)
    requires Ordered(s, n)
    ensures forall i :: 0 <= i < |s| ==> (s[i].d.version < version <==> i < Place(s, version))
  {
    var p := Place(s, version);
    forall i | 0 <= i < p ensures s[i].d.version < version {
      if i < p - 1 { OrderedPair(s, n, i, p - 1); }
    }
  }

  // ----- a replayed stack

  /** The clean version found on disk covers the version. */
  predicate Old(d: Dirty, c: Option<nat>) { c.Some? && d.version <= c.value }

  /** A replay that starts at `k` over clean version `c` puts the version into the stack. */
  predicate Here(v: Ver, k: nat, c: Option<nat>) { v.at >= k && !Old(v.d, c) }

  /** A replayed version is one of the history, and stable only if that is. */
  predicate Comes(y: Dirty, v: Ver, k: nat, c: Option<nat>) {
    && Here(v, k, c) && y == v.d.(state := y.state)
    && (y.state == Synced || (y.state == Stable && v.d.state == Stable))
  }

  ghost predicate Known(y: Dirty, s: seq<Ver>, k: nat, c: Option<nat>) {
    exists i :: 0 <= i < |s| && Comes(y, s[i], k, c)
  }

  ghost predicate AllKnown(x: seq<Dirty>, s: seq<Ver>, k: nat, c: Option<nat>) {
    forall i :: 0 <= i < |x| ==> Known(x[i], s, k, c)
  }

  ghost predicate Increasing(x: seq<Dirty>) { forall i, j :: 0 <= i < j < |x| ==> x[i].version < x[j].version }

  ghost predicate Holds(x: seq<Dirty>, version: nat) { exists i :: 0 <= i < |x| && x[i].version == version }

  /** A stable big write or delete hides the version. */
  predicate Veils(y: Dirty, version: nat) { y.version > version && Barrier(y) && y.state == Stable }

  ghost predicate Veiled(x: seq<Dirty>, version: nat) { exists i :: 0 <= i < |x| && Veils(x[i], version) }

  predicate Wipes(v: Ver, k: nat) { v.d.kind == Delete && v.at >= k }

  /** Without a clean version a delete leaves nothing of what is up to it. */
  ghost predicate Wiped(s: seq<Ver>, i: nat, k: nat, c: Option<nat>) {
    c.None? && exists j :: i <= j < |s| && Wipes(s[j], k)
  }

  ghost predicate Accounted(x: seq<Dirty>, s: seq<Ver>, i: nat, k: nat, c: Option<nat>)
    requires i < |s|
  {
    Holds(x, s[i].d.version) || Veiled(x, s[i].d.version) || Wiped(s, i, k, c)
  }

  ghost predicate AllAccounted(x: seq<Dirty>, s: seq<Ver>, k: nat, c: Option<nat>) {
    forall i :: 0 <= i < |s| && Here(s[i], k, c) ==> Accounted(x, s, i, k, c)
  }

  ghost predicate NoneWiped(x: seq<Dirty>, s: seq<Ver>, k: nat, c: Option<nat>) {
    c.None? ==> forall i, j :: 0 <= i < |x| && 0 <= j < |s| && Wipes(s[j], k) ==> x[i].version > s[j].d.version
  }

  /** A replayed stack has only versions of the history, in order, and lacks one of those that are in the
      tail only if it is hidden or deleted. */
  ghost predicate Rebuilds(x: seq<Dirty>, s: seq<Ver>, k: nat, c: Option<nat>) {
    Increasing(x) && AllKnown(x, s, k, c) && AllAccounted(x, s, k, c) && NoneWiped(x, s, k, c)
  }

  /** The journal mirrors the history, whichever tail is replayed over whichever clean version. */
  ghost predicate Mirrors(log: seq<Entry>, s: seq<Ver>) {
    && Ordered(s, |log|)
    && forall k: nat, c: Option<nat> {:trigger ReplayLog(log[k..], c)} :: k <= |log| ==>
      Rebuilds(ReplayLog(log[k..], c), s, k, c)
  }

  // ----- what follows from that

  lemma Source(x: seq<Dirty>, s: seq<Ver>, k: nat, c: Option<nat>, m: nat) returns (i: nat)
    requires AllKnown(x, s, k, c) && m < |x|
    ensures i < |s| && Comes(x[m], s[i], k, c)
  {
    assert Known(x[m], s, k, c);
    i :| 0 <= i < |s| && Comes(x[m], s[i], k, c);
  }

  lemma RebuildsParts(x: seq<Dirty>, s: seq<Ver>, k: nat, c: Option<nat>)
    requires Rebuilds(x, s, k, c)
    ensures Increasing(x) && AllKnown(x, s, k, c) && AllAccounted(x, s, k, c) && NoneWiped(x, s, k, c)
  {
  }

  /** Nothing of the history is in the tail and new. */
  lemma NothingHere(x: seq<Dirty>, s: seq<Ver>, k: nat, c: Option<nat>)
    requires AllKnown(x, s, k, c) && forall i :: 0 <= i < |s| ==> !Here(s[i], k, c)
    ensures x == []
  {
    if x != [] { var i := Source(x, s, k, c, 0); }
  }

  lemma RebuildsNothing(s: seq<Ver>, k: nat, c: Option<nat>)
    requires forall i :: 0 <= i < |s| ==> !Here(s[i], k, c)
    ensures Rebuilds([], s, k, c)
  {
  }

  /** The replayed versions are not above the history. */
  lemma BelowLast(x: seq<Dirty>, s: seq<Ver>, n: nat, k: nat, c: Option<nat>)
    requires Ordered(s, n) && AllKnown(x, s, k, c)
    ensures x != [] ==> s != []
    ensures forall i :: 0 <= i < |x| ==> x[i].version <= Last(s).d.version
  {
    if x != [] { var i := Source(x, s, k, c, 0); }
    forall m | 0 <= m < |x| ensures s != [] && x[m].version <= Last(s).d.version {
      var i := Source(x, s, k, c, m);
      if i < |s| - 1 { OrderedPair(s, n, i, |s| - 1); }
    }
  }
}
