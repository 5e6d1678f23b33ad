/** Crash consistency of one object over whole runs.

    The state of an object is its durable journal entries, its version stack, its clean copy, the
    devices and the progress of the flusher. Every step of a run may change the devices outside
    of what the object owns, so steps on other objects are included. A crash may follow any step:
    the metadata entry found on disk is loaded and the untrimmed journal is replayed. */
module Recovery {
  import opened Basics
  import opened Overlay
  import opened Versions
  import opened Flush
  import opened Replayed
  import opened Mirror
  import opened Marking
  import opened Placing

  /** How far the single flusher has come with the versions `s[m..n]`. */
  datatype Phase =
    | Idle
    | Copying(n: nat, plan: Plan)          // journal data is being copied to the data device
    | OldErased(n: nat, planned: Clean)    // the old metadata entry is zeroed, the new one not yet written
    | Committed(n: nat, next: Option<Clean>)  // the new metadata entry is written, `dirty_db` still has the versions

  /** `log[t..]` is the journal on disk; `s` is the history of journaled versions since the object was
      last created, of which `dirty_db` holds `s[m..]`; `pend` are the numbers of the writes that are
      submitted but not journaled yet. A version is `Stable` here as soon as the journal or `dirty_db`
      has ever made it so. `dirty_db` itself may be behind: an instant write waits for lower ones, and
      a restart may find less. */
  datatype Object = Object(log: seq<Entry>, t: nat, s: seq<Ver>, m: nat, clean: Option<Clean>, phase: Phase,
                           pend: set<nat>)
  {
    function Memory(): seq<Dirty>
      requires m <= |s|
    {
      Dirties(s[m..])
    }
  }

  /** The metadata entry of the object that a restart would find. */
  function OnDisk(o: Object): Option<Clean> {
    match o.phase
    case Idle => o.clean
    case Copying(_, _) => o.clean
    case OldErased(_, _) => None
    case Committed(_, next) => next
  }

  function VersionIn(c: Option<Clean>): Option<nat> { if c.None? then None else Some(c.value.version) }

  /** What a read of the newest version returns. */
  function Newest(dev: Devices, size: nat, o: Object): Option<Bytes>
    requires o.m <= |o.s|
  {
    Replay(dev, size, o.Memory(), Base(dev, size, o.clean))
  }

  /** The versions that a restart puts into `dirty_db`. */
  function Reloaded(o: Object): seq<Dirty>
    requires o.t <= |o.log|
  {
    ReplayLog(o.log[o.t..], VersionIn(OnDisk(o)))
  }

  // ----- ownership of blocks and journal data

  predicate Apart(a: int, b: int, size: nat) { a + size <= b || b + size <= a }

  predicate Fits(dev: Devices, size: nat, loc: int) { 0 <= loc && loc + size <= |dev.data| }

  predicate Clear(a: Dirty, b: Dirty, size: nat) {
    a.kind == BigWrite && b.kind == BigWrite ==> Apart(a.location, b.location, size)
  }

  predicate Housed(dev: Devices, size: nat, d: Dirty, clean: Option<Clean>) {
    d.kind == BigWrite ==>
      Fits(dev, size, d.location) && (clean.Some? ==> Apart(d.location, clean.value.location, size))
  }

  /** Every big write and the clean copy have a block of their own. */
  ghost predicate OwnsBlocks(dev: Devices, size: nat, stack: seq<Dirty>, clean: Option<Clean>) {
    && (clean.Some? ==> Fits(dev, size, clean.value.location) && |clean.value.bitmap| == size)
    && (forall i :: 0 <= i < |stack| ==> Housed(dev, size, stack[i], clean))
    && (forall i, j {:trigger Clear(stack[i], stack[j], size)} ::
          0 <= i < j < |stack| ==> Clear(stack[i], stack[j], size))
  }

  ghost predicate SameBlock(dev: Devices, dev': Devices, size: nat, loc: int) {
    forall p :: 0 <= p < size ==> BlockByte(dev', loc, p) == BlockByte(dev, loc, p)
  }

  function BlockByte(dev: Devices, loc: int, p: int): Granule { dev.At(Data, loc + p) }

  ghost predicate SameVersion(dev: Devices, dev': Devices, size: nat, d: Dirty) {
    && (d.kind == BigWrite ==> SameBlock(dev, dev', size, d.location))
    && (d.kind == SmallWrite ==> forall p :: d.InRange(p) ==> SmallByte(dev', d, p) == SmallByte(dev, d, p))
  }

  /** Nothing that the object owns has changed. */
  ghost predicate Undisturbed(dev: Devices, dev': Devices, size: nat, stack: seq<Dirty>, clean: Option<Clean>) {
    && |dev'.data| == |dev.data|
    && (forall i :: 0 <= i < |stack| ==> SameVersion(dev, dev', size, stack[i]))
    && (clean.Some? ==> SameBlock(dev, dev', size, clean.value.location))
  }

  lemma {:induction false} ReplayFrame(dev: Devices, dev': Devices, size: nat, stack: seq<Dirty>, base: Option<Bytes>)
    requires forall i :: 0 <= i < |stack| ==> SameVersion(dev, dev', size, stack[i])
    ensures Replay(dev', size, stack, base) == Replay(dev, size, stack, base)
    decreases |stack|
  {
    if stack != [] {
      ReplayFrame(dev, dev', size, stack[..|stack| - 1], base);
      var d := stack[|stack| - 1];
      var cur := Replay(dev, size, stack[..|stack| - 1], base);
      if d.kind != Delete {
        var a, b := Apply(dev, size, d, cur), Apply(dev', size, d, cur);
        forall p | 0 <= p < size ensures a.value[p] == b.value[p] {
          assert d.kind == BigWrite ==> BlockByte(dev', d.location, p) == BlockByte(dev, d.location, p);
        }
        assert a.value == b.value;
      }
    }
  }

  lemma BaseFrame(dev: Devices, dev': Devices, size: nat, clean: Option<Clean>)
    requires clean.Some? ==> SameBlock(dev, dev', size, clean.value.location)
    ensures Base(dev', size, clean) == Base(dev, size, clean)
  {
    if clean.Some? {
      forall p | 0 <= p < size ensures CleanByte(dev', clean.value, p) == CleanByte(dev, clean.value, p) {
        assert BlockByte(dev', clean.value.location, p) == BlockByte(dev, clean.value.location, p);
      }
      assert CleanBytes(dev', size, clean.value) == CleanBytes(dev, size, clean.value);
    }
  }

  // ----- the invariant

  predicate Hides(v: Ver) { Barrier(v.d) && v.d.state == Stable }

  predicate IsVersion(v: Ver, clean: Clean) { v.d.version == clean.version && v.d.kind != Delete }

  /** How the clean copy joins the history: it is the version just below `dirty_db`, or everything
      between the two is hidden by a stable big write or delete. */
  ghost predicate Joined(s: seq<Ver>, m: nat, clean: Option<Clean>)
    requires m <= |s|
  {
    if clean.Some? then
      exists f :: 0 <= f < m && IsVersion(s[f], clean.value) && (f + 1 == m || (m < |s| && Hides(s[m])))
    else
      m == 0 || s[m - 1].d.kind == Delete || (m < |s| && Hides(s[m]))
  }

  ghost predicate Placed(dev: Devices, size: nat, stack: seq<Dirty>, clean: Option<Clean>) {
    && ValidStack(stack, size)
    && Based(stack, clean.Some?)
    && OwnsBlocks(dev, size, stack, clean)
  }

  ghost predicate PhaseOk(dev: Devices, size: nat, o: Object)
    requires o.m <= |o.s|
  {
    match o.phase
    case Idle => true
    case Copying(n, plan) =>
      && o.m < n <= |o.s| && o.s[n - 1].d.state == Stable
      && Describes(plan, size, Dirties(o.s[o.m..n]), o.clean) && plan.hasWrites
    case OldErased(n, next) =>
      && o.m < n <= |o.s| && o.s[n - 1].d.state == Stable
      && Base(dev, size, Some(next)) == Replay(dev, size, Dirties(o.s[o.m..n]), Base(dev, size, o.clean))
      && NextEntry(o.s, o.m, n, o.clean, Some(next), size)
      && exists a :: o.m <= a < n && o.s[a].d.kind == BigWrite
    case Committed(n, next) =>
      && o.m < n <= |o.s| && o.s[n - 1].d.state == Stable
      && Base(dev, size, next) == Replay(dev, size, Dirties(o.s[o.m..n]), Base(dev, size, o.clean))
      && NextEntry(o.s, o.m, n, o.clean, next, size)
  }

  ghost predicate OwnedLocation(s: seq<Ver>, clean: Option<Clean>, loc: int) {
    || (clean.Some? && clean.value.location == loc)
    || exists i :: 0 <= i < |s| && s[i].d.kind == BigWrite && s[i].d.location == loc
  }

  /** The journal entries of the versions from `m` on are not trimmed. */
  ghost predicate Retained(s: seq<Ver>, m: nat, t: nat) {
    forall i :: m <= i < |s| ==> t <= s[i].at
  }

  ghost predicate Core(dev: Devices, size: nat, o: Object) {
    && Mirrors(o.log, o.s)
    && o.m <= |o.s| && o.t <= |o.log| && Retained(o.s, o.m, o.t)
    && (o.m > 0 ==> o.s[o.m - 1].d.state == Stable)
    && Joined(o.s, o.m, o.clean)
    && Placed(dev, size, o.Memory(), o.clean)
  }

  /** No clean copy and nothing in `dirty_db`: the next write starts a new history. */
  predicate Gone(o: Object) { o.clean.None? && o.m == |o.s| }

  /** The clean copy is the version just below `dirty_db`. */
  predicate Adjacent(s: seq<Ver>, m: nat, clean: Option<Clean>)
    requires m <= |s|
  {
    if clean.Some? then m > 0 && IsVersion(s[m - 1], clean.value) else m == 0 || s[m - 1].d.kind == Delete
  }

  /** Up to where no more writes come: what is flushed or being flushed, and a version that has to hide
      what is missing below it. */
  function Reach(o: Object): nat {
    if !o.phase.Idle? && o.phase.n > o.m then o.phase.n
    else if o.m < |o.s| && !Adjacent(o.s, o.m, o.clean) then o.m + 1
    else o.m
  }

  /** A submitted write still has a place in the history when it is journaled. */
  ghost predicate Awaited(s: seq<Ver>, reach: nat, version: nat) {
    forall i :: 0 <= i < |s| ==>
      s[i].d.version != version && (i < reach || s[i].d.kind == Delete ==> s[i].d.version < version)
  }

  ghost predicate PendOk(o: Object) { Gone(o) || forall p :: p in o.pend ==> Awaited(o.s, Reach(o), p) }

  ghost predicate Inv(dev: Devices, size: nat, o: Object) {
    Core(dev, size, o) && PhaseOk(dev, size, o) && PendOk(o)
  }

  /** A freshly created object: nothing in the journal, no clean copy. */
  const NewObject := Object([], 0, [], 0, None, Idle, {})

  lemma NewObjectInv(dev: Devices, size: nat)
    ensures Inv(dev, size, NewObject)
  {
    MirrorsEmpty();
  }

  // ----- restart

  /** A replay does not look below position `m`. */
  ghost predicate StopsAt(s: seq<Ver>, m: nat, c: Option<nat>)
    requires m <= |s|
  {
    || (m < |s| && Hides(s[m]))
    || (c.None? && (m == 0 || s[m - 1].d.kind == Delete))
    || (c.Some? && m > 0 && s[m - 1].d.version <= c.value)
  }

  /** A big write or a delete hides all that is below it. */
  lemma HiddenBelow(dev: Devices, size: nat, s: seq<Dirty>, j: nat, base: Option<Bytes>, base': Option<Bytes>)
    requires j < |s| && Barrier(s[j])
    ensures Replay(dev, size, s, base) == Replay(dev, size, s[j..], base')
  {
    assert s == s[..j + 1] + s[j + 1..];
    ReplayConcat(dev, size, s[..j + 1], s[j + 1..], base);
    assert s[..j + 1][..j] == s[..j];
    assert s[j..] == [s[j]] + s[j + 1..];
    ReplayConcat(dev, size, [s[j]], s[j + 1..], base');
    assert [s[j]][..0] == [];
  }

  lemma {:induction false} BasedSuffix(s: seq<Dirty>, clean: bool, k: nat, clean': bool)
    requires Based(s, clean) && k <= |s| && (k < |s| && s[k].kind == SmallWrite ==> clean')
    ensures Based(s[k..], clean')
    decreases |s|
  {
    if k < |s| {
      BasedSuffix(s[..|s| - 1], clean, k, clean');
      assert s[k..][..|s| - k - 1] == s[..|s| - 1][k..];
    }
  }

  lemma PlacedSuffix(dev: Devices, size: nat, stack: seq<Dirty>, clean: Option<Clean>, k: nat, clean': Option<Clean>)
    requires Placed(dev, size, stack, clean) && k <= |stack|
    requires k < |stack| && stack[k].kind == SmallWrite ==> clean'.Some?
    requires clean'.Some? ==> Fits(dev, size, clean'.value.location) && |clean'.value.bitmap| == size
    requires forall i :: k <= i < |stack| ==> Housed(dev, size, stack[i], clean')
    ensures Placed(dev, size, stack[k..], clean')
  {
    BasedSuffix(stack, clean.Some?, k, clean'.Some?);
  }

  lemma DirtiesSlice(s: seq<Ver>, a: nat, b: nat)
    requires a <= b <= |s|
    ensures Dirties(s[a..])[b - a..] == Dirties(s[b..])
    ensures Dirties(s[a..])[..b - a] == Dirties(s[a..b])
    ensures Dirties(s[a..]) == Dirties(s[a..b]) + Dirties(s[b..])
  {
  }

  /** A place where a restart over the metadata entry `disk` certainly stops looking. */
  ghost predicate Cut(s: seq<Ver>, t: nat, disk: Option<Clean>, a: nat) {
    && a <= |s|
    && StopsAt(s, a, VersionIn(disk))
    && Retained(s, a, t)
    && (a > 0 ==> s[a - 1].d.state == Stable)
    && Joined(s, a, disk)
  }

  /** What is read above such a place. */
  function Above(dev: Devices, size: nat, s: seq<Ver>, disk: Option<Clean>, a: nat): Option<Bytes>
    requires a <= |s|
  {
    Replay(dev, size, Dirties(s[a..]), Base(dev, size, disk))
  }

  lemma StableDown(s: seq<Ver>, n: nat, i: nat, j: nat)
    requires Ordered(s, n) && i <= j < |s| && s[j].d.state == Stable
    ensures s[i].d.state == Stable
  {
    if i < j { OrderedPair(s, n, i, j); }
  }

  lemma PlacedFrom(dev: Devices, size: nat, s: seq<Ver>, m: nat, clean: Option<Clean>, a: nat, clean': Option<Clean>)
    requires m <= a <= |s| && Placed(dev, size, Dirties(s[m..]), clean)
    requires a < |s| && s[a].d.kind == SmallWrite ==> clean'.Some?
    requires clean'.Some? ==> Fits(dev, size, clean'.value.location) && |clean'.value.bitmap| == size
    requires forall i :: a <= i < |s| ==> Housed(dev, size, s[i].d, clean')
    ensures Placed(dev, size, Dirties(s[a..]), clean')
  {
    var stack := Dirties(s[m..]);
    DirtiesSlice(s, m, a);
    forall i | a - m <= i < |stack| ensures Housed(dev, size, stack[i], clean') {
      assert stack[i] == s[m + i].d;
    }
    assert a < |s| ==> stack[a - m] == s[a].d;
    PlacedSuffix(dev, size, stack, clean, a - m, clean');
  }

  lemma HiddenFrom(dev: Devices, size: nat, s: seq<Ver>, m: nat, base: Option<Bytes>, a: nat, base': Option<Bytes>)
    requires m <= a < |s| && Barrier(s[a].d)
    ensures Replay(dev, size, Dirties(s[a..]), base') == Replay(dev, size, Dirties(s[m..]), base)
  {
    DirtiesSlice(s, m, a);
    assert Dirties(s[m..])[a - m] == s[a].d;
    HiddenBelow(dev, size, Dirties(s[m..]), a - m, base, base');
  }

  // -- between zeroing the old metadata entry and writing the new one: the big write among the
  //    flushed versions is the anchor

  lemma CutErased(s: seq<Ver>, len: nat, t: nat, m: nat, n: nat, a: nat)
    requires Ordered(s, len) && m <= a < n <= |s| && s[n - 1].d.state == Stable && Retained(s, m, t)
    requires s[a].d.kind == BigWrite
    ensures Cut(s, t, None, a)
  {
    StableDown(s, len, a, n - 1);
    if a > 0 { StableDown(s, len, a - 1, a); }
  }

  // -- after the new metadata entry is written: the versions above it are what counts

  ghost predicate NextEntry(s: seq<Ver>, m: nat, n: nat, clean: Option<Clean>, next: Option<Clean>, size: nat)
    requires m < n <= |s|
  {
    && (next.None? <==> s[n - 1].d.kind == Delete)
    && (next.Some? ==>
          && next.value.version == s[n - 1].d.version && |next.value.bitmap| == size
          && OwnedLocation(s[m..n], clean, next.value.location))
  }

  lemma CutCommitted(s: seq<Ver>, len: nat, t: nat, m: nat, n: nat, clean: Option<Clean>, next: Option<Clean>,
          size: nat)
    requires Ordered(s, len) && m < n <= |s| && s[n - 1].d.state == Stable && Retained(s, m, t)
    requires NextEntry(s, m, n, clean, next, size)
    ensures Cut(s, t, next, n)
  {
    hide Ordered;
  }

  lemma ExistsBelow(stack: seq<Dirty>, clean: bool, k: nat)
    requires Based(stack, clean) && 0 < k < |stack| && stack[k].kind == SmallWrite
    ensures stack[k - 1].kind != Delete
  {
    BasedPrefix(stack, clean, k + 1);
    assert stack[..k + 1][..k] == stack[..k];
    assert stack[..k][k - 1] == stack[k - 1];
  }

  lemma ExistsUnder(s: seq<Ver>, m: nat, clean: bool, n: nat)
    requires m < n < |s| && Based(Dirties(s[m..]), clean) && s[n].d.kind == SmallWrite
    ensures s[n - 1].d.kind != Delete
  {
    var stack := Dirties(s[m..]);
    assert stack[n - m] == s[n].d && stack[n - m - 1] == s[n - 1].d;
    ExistsBelow(stack, clean, n - m);
  }

  /** The block of the new clean copy is one of those owned by the versions being flushed. */
  lemma NextFits(dev: Devices, size: nat, s: seq<Ver>, m: nat, n: nat, clean: Option<Clean>, loc: int)
    requires m <= n <= |s| && OwnsBlocks(dev, size, Dirties(s[m..]), clean) && OwnedLocation(s[m..n], clean, loc)
    ensures Fits(dev, size, loc)
    ensures forall i :: n <= i < |s| && s[i].d.kind == BigWrite ==>
      Fits(dev, size, s[i].d.location) && Apart(s[i].d.location, loc, size)
  {
    var stack := Dirties(s[m..]);
    if clean.Some? && clean.value.location == loc {
      forall i | n <= i < |s| && s[i].d.kind == BigWrite
        ensures Fits(dev, size, s[i].d.location) && Apart(s[i].d.location, loc, size)
      {
        assert stack[i - m] == s[i].d;
      }
    } else {
      var q :| 0 <= q < |s[m..n]| && s[m..n][q].d.kind == BigWrite && s[m..n][q].d.location == loc;
      assert stack[q] == s[m..n][q].d && Housed(dev, size, stack[q], clean);
      forall i | n <= i < |s| && s[i].d.kind == BigWrite
        ensures Fits(dev, size, s[i].d.location) && Apart(s[i].d.location, loc, size)
      {
        assert stack[i - m] == s[i].d && Clear(stack[q], stack[i - m], size);
      }
    }
  }

  lemma HousedFrom(dev: Devices, size: nat, s: seq<Ver>, m: nat, clean: Option<Clean>)
    requires m <= |s| && OwnsBlocks(dev, size, Dirties(s[m..]), clean)
    ensures forall i :: m <= i < |s| ==> Housed(dev, size, s[i].d, clean)
  {
    forall i | m <= i < |s| ensures Housed(dev, size, s[i].d, clean) {
      assert Dirties(s[m..])[i - m] == s[i].d;
    }
  }

  lemma PlacedCommitted(dev: Devices, size: nat, s: seq<Ver>, m: nat, n: nat, clean: Option<Clean>, next: Option<Clean>)
    requires m < n <= |s| && Placed(dev, size, Dirties(s[m..]), clean) && NextEntry(s, m, n, clean, next, size)
    ensures Placed(dev, size, Dirties(s[n..]), next)
  {
    HousedFrom(dev, size, s, m, clean);
    if next.Some? {
      NextFits(dev, size, s, m, n, clean, next.value.location);
    } else if n < |s| && s[n].d.kind == SmallWrite {
      ExistsUnder(s, m, clean.Some?, n);
    }
    PlacedFrom(dev, size, s, m, clean, n, next);
  }

  lemma ReplaySplit(dev: Devices, size: nat, s: seq<Ver>, m: nat, n: nat, base: Option<Bytes>)
    requires m <= n <= |s|
    ensures Replay(dev, size, Dirties(s[m..]), base)
         == Replay(dev, size, Dirties(s[n..]), Replay(dev, size, Dirties(s[m..n]), base))
  {
    DirtiesSlice(s, m, n);
    ReplayConcat(dev, size, Dirties(s[m..n]), Dirties(s[n..]), base);
  }

  // -- from such a place up to where everything has come back

  lemma CutHidden(s: seq<Ver>, len: nat, t: nat, disk: Option<Clean>, a: nat, j: nat)
    requires Ordered(s, len) && Cut(s, t, disk, a) && a < j < |s| && Hides(s[j])
    ensures Cut(s, t, disk, j)
  {
    StableDown(s, len, j - 1, j);
    if disk.Some? {
      var f :| 0 <= f < a && IsVersion(s[f], disk.value) && (f + 1 == a || (a < |s| && Hides(s[a])));
    }
  }

  lemma CutDeleted(s: seq<Ver>, len: nat, t: nat, a: nat, j: nat)
    requires Ordered(s, len) && Cut(s, t, None, a) && a < j <= |s| && s[j - 1].d.kind == Delete
    ensures Cut(s, t, None, j)
  {
    OrderedAt(s, len, j - 1);
  }

  lemma DeletedFrom(dev: Devices, size: nat, s: seq<Ver>, a: nat, j: nat)
    requires a < j <= |s| && s[j - 1].d.kind == Delete
    ensures Replay(dev, size, Dirties(s[j..]), None) == Replay(dev, size, Dirties(s[a..]), None)
  {
    ReplaySplit(dev, size, s, a, j, None);
    assert Dirties(s[a..j])[j - a - 1] == s[j - 1].d;
  }

  /** A restart has brought back all versions from `j` on. */
  ghost predicate CameBack(x: seq<Dirty>, s: seq<Ver>, j: nat) {
    forall i :: j <= i < |s| ==> Holds(x, s[i].d.version)
  }

  lemma NotBehind(s: seq<Ver>, len: nat, a: nat, i: nat, disk: Clean)
    requires Ordered(s, len) && a <= i < |s| && Joined(s, a, Some(disk))
    ensures s[i].d.version > disk.version
  {
    var f :| 0 <= f < a && IsVersion(s[f], disk) && (f + 1 == a || (a < |s| && Hides(s[a])));
    OrderedPair(s, len, f, i);
  }

  /** Every version from such a place on is replayed. */
  lemma AllHere(s: seq<Ver>, len: nat, t: nat, disk: Option<Clean>, a: nat, i: nat)
    requires Ordered(s, len) && Cut(s, t, disk, a) && a <= i < |s|
    ensures Here(s[i], t, VersionIn(disk))
  {
    if disk.Some? { NotBehind(s, len, a, i, disk.value); }
  }

  /** Where a stable big write or delete hides something, or a delete has wiped it out, is a higher place. */
  lemma FindCut(dev: Devices, size: nat, x: seq<Dirty>, s: seq<Ver>, len: nat, t: nat, disk: Option<Clean>, a: nat)
    returns (j: nat)
    requires Ordered(s, len) && Rebuilds(x, s, t, VersionIn(disk)) && Cut(s, t, disk, a)
    ensures a <= j <= |s| && Cut(s, t, disk, j) && CameBack(x, s, j)
    ensures Above(dev, size, s, disk, j) == Above(dev, size, s, disk, a)
    decreases |s| - a
  {
    hide Ordered, Rebuilds, Cut, Holds;
    if CameBack(x, s, a) {
      CutBounds(s, t, disk, a);
      j := a;
    } else {
      var i :| a <= i < |s| && !Holds(x, s[i].d.version);
      AllHere(s, len, t, disk, a, i);
      var h := Missing(x, s, len, t, VersionIn(disk), i);
      if h < |s| && Hides(s[h]) && h > i {
        CutHidden(s, len, t, disk, a, h);
        HiddenFrom(dev, size, s, a, Base(dev, size, disk), h, Base(dev, size, disk));
      } else {
        CutDeleted(s, len, t, a, h);
        DeletedFrom(dev, size, s, a, h);
      }
      j := FindCut(dev, size, x, s, len, t, disk, h);
    }
  }

  lemma CutBounds(s: seq<Ver>, t: nat, disk: Option<Clean>, a: nat)
    requires Cut(s, t, disk, a)
    ensures a <= |s|
  {
  }

  lemma Missing(x: seq<Dirty>, s: seq<Ver>, len: nat, t: nat, c: Option<nat>, i: nat) returns (h: nat)
    requires Ordered(s, len) && Rebuilds(x, s, t, c) && i < |s| && Here(s[i], t, c) && !Holds(x, s[i].d.version)
    ensures i < h <= |s| && ((h < |s| && Hides(s[h])) || (c.None? && s[h - 1].d.kind == Delete))
  {
    hide Ordered, Known, Holds, Veiled, Wiped, Increasing, NoneWiped;
    assert Accounted(x, s, i, t, c);
    if Veiled(x, s[i].d.version) {
      h := VeiledBy(x, s, len, t, c, i);
    } else {
      h := WipedBy(s, t, c, i);
    }
  }

  lemma VeiledBy(x: seq<Dirty>, s: seq<Ver>, len: nat, t: nat, c: Option<nat>, i: nat) returns (h: nat)
    requires Ordered(s, len) && AllKnown(x, s, t, c) && i < |s| && Veiled(x, s[i].d.version)
    ensures i < h < |s| && Hides(s[h])
  {
    hide Ordered, AllKnown;
    var m :| 0 <= m < |x| && Veils(x[m], s[i].d.version);
    h := Source(x, s, t, c, m);
    if h < i { OrderedPair(s, len, h, i); }
  }

  lemma WipedBy(s: seq<Ver>, t: nat, c: Option<nat>, i: nat) returns (h: nat)
    requires Wiped(s, i, t, c)
    ensures i < h <= |s| && c.None? && s[h - 1].d.kind == Delete
  {
    var q :| i <= q < |s| && Wipes(s[q], t);
    h := q + 1;
  }

  /** The upper part of the stack is the history from `j` on. */
  ghost predicate Matches(x: seq<Dirty>, s: seq<Ver>, k: nat, c: Option<nat>, j: nat) {
    |s| - j <= |x| && forall i :: j <= i < |s| ==> Comes(x[|x| - |s| + i], s[i], k, c)
  }

  lemma {:induction false} TopMatches(x: seq<Dirty>, s: seq<Ver>, n: nat, k: nat, c: Option<nat>, j: nat)
    requires Ordered(s, n) && Increasing(x) && AllKnown(x, s, k, c) && j <= |s| && CameBack(x, s, j)
    ensures Matches(x, s, k, c, j)
    decreases |s| - j
  {
    hide Ordered, Increasing, AllKnown, Matches, Holds;
    if j < |s| {
      TopMatches(x, s, n, k, c, j + 1);
      assert Holds(x, s[j].d.version);
      NextMatches(x, s, n, k, c, j);
    } else {
      NoneMatches(x, s, k, c);
    }
  }

  lemma NoneMatches(x: seq<Dirty>, s: seq<Ver>, k: nat, c: Option<nat>)
    ensures Matches(x, s, k, c, |s|)
  {
  }

  lemma NextMatches(x: seq<Dirty>, s: seq<Ver>, n: nat, k: nat, c: Option<nat>, j: nat)
    requires Ordered(s, n) && Increasing(x) && AllKnown(x, s, k, c) && j < |s| && Matches(x, s, k, c, j + 1)
    requires Holds(x, s[j].d.version)
    ensures Matches(x, s, k, c, j)
  {
    hide Ordered, AllKnown, Comes;
    var h := |x| - |s| + j;
    var m :| 0 <= m < |x| && x[m].version == s[j].d.version;
    MatchBelow(x, s, n, k, c, j, m);
    var i := Source(x, s, k, c, h);
    MatchIndex(x, s, n, k, c, j, m, i);
  }

  lemma MatchBelow(x: seq<Dirty>, s: seq<Ver>, n: nat, k: nat, c: Option<nat>, j: nat, m: nat)
    requires Ordered(s, n) && j < |s| && Matches(x, s, k, c, j + 1) && m < |x| && x[m].version == s[j].d.version
    ensures m <= |x| - |s| + j
  {
    if m > |x| - |s| + j {
      var i := m - (|x| - |s|);
      OrderedPair(s, n, j, i);
    }
  }

  lemma MatchIndex(x: seq<Dirty>, s: seq<Ver>, n: nat, k: nat, c: Option<nat>, j: nat, m: nat, i: nat)
    requires Ordered(s, n) && Increasing(x) && j < |s| && Matches(x, s, k, c, j + 1) && i < |s|
    requires m <= |x| - |s| + j && x[m].version == s[j].d.version && Comes(x[|x| - |s| + j], s[i], k, c)
    ensures i == j
  {
    var h := |x| - |s| + j;
    if m < h { assert x[m].version < x[h].version; }
    if i < j { OrderedPair(s, n, i, j); }
  }

  lemma LowerFirst(s: seq<Ver>, len: nat, i: nat, j: nat)
    requires Ordered(s, len) && i < |s| && j < |s| && s[i].d.version < s[j].d.version
    ensures i < j
  {
    hide Ordered;
    if j < i { OrderedPair(s, len, j, i); }
  }

  /** The replayed stack: the versions from `j` on, over leftovers `left` that they hide. */
  ghost predicate Brings(x: seq<Dirty>, s: seq<Ver>, left: seq<Dirty>, j: nat)
    requires j <= |s|
  {
    && |x| == |left| + |s| - j && x[..|left|] == left
    && SameButState(Dirties(s[j..]), x[|left|..])
    && (left == [] || (j < |s| && Hides(s[j])))
  }

  /** Versions that differ in their workflow state only. */
  ghost predicate SameButState(a: seq<Dirty>, b: seq<Dirty>) {
    |a| == |b| && forall i :: 0 <= i < |a| ==> b[i] == a[i].(state := b[i].state)
  }

  lemma ReplayBrings(x: seq<Dirty>, s: seq<Ver>, len: nat, t: nat, disk: Option<Clean>, j: nat)
      returns (left: seq<Dirty>)
    requires Ordered(s, len) && Rebuilds(x, s, t, VersionIn(disk)) && Cut(s, t, disk, j) && CameBack(x, s, j)
    ensures j <= |s| && Brings(x, s, left, j)
  {
    hide Ordered, CameBack, Known, Accounted;
    var c := VersionIn(disk);
    TopMatches(x, s, len, t, c, j);
    var h := |x| - |s| + j;
    left := x[..h];
    var a, b := Dirties(s[j..]), x[h..];
    forall i | 0 <= i < |a| ensures b[i] == a[i].(state := b[i].state) {
      assert Comes(x[|x| - |s| + (j + i)], s[j + i], t, c);
    }
    if left != [] {
      var i := Source(x, s, t, c, 0);
      if j < |s| {
        assert Comes(x[|x| - |s| + j], s[j], t, c);
        LowerFirst(s, len, i, j);
      }
      HidesLeft(x, s, len, t, c, j, i);
    }
  }

  lemma HidesLeft(x: seq<Dirty>, s: seq<Ver>, len: nat, t: nat, c: Option<nat>, j: nat, i: nat)
    requires Ordered(s, len) && NoneWiped(x, s, t, c) && x != [] && i < j <= |s| && Comes(x[0], s[i], t, c)
    requires StopsAt(s, j, c)
    ensures j < |s| && Hides(s[j])
  {
    if i < j - 1 { OrderedPair(s, len, i, j - 1); }
    assert s[j - 1].d.kind == Delete ==> Wipes(s[j - 1], t);
  }

  lemma {:induction false} ReplaySameButState(dev: Devices, size: nat, a: seq<Dirty>, b: seq<Dirty>,
          base: Option<Bytes>)
    requires SameButState(a, b)
    ensures Replay(dev, size, b, base) == Replay(dev, size, a, base)
    decreases |a|
  {
    if a != [] {
      ReplaySameButState(dev, size, a[..|a| - 1], b[..|b| - 1], base);
      ApplyState(dev, size, a[|a| - 1], b[|b| - 1], Replay(dev, size, a[..|a| - 1], base));
    }
  }

  /** The workflow state of a version has no bearing on what it means. */
  lemma ApplyState(dev: Devices, size: nat, d: Dirty, d': Dirty, cur: Option<Bytes>)
    requires d' == d.(state := d'.state)
    ensures Apply(dev, size, d', cur) == Apply(dev, size, d, cur)
  {
    if d.kind != Delete {
      var a, b := Apply(dev, size, d, cur).value, Apply(dev, size, d', cur).value;
      assert forall p :: 0 <= p < size ==> a[p] == b[p];
      assert a == b;
    }
  }

  lemma BringsContents(dev: Devices, size: nat, x: seq<Dirty>, s: seq<Ver>, left: seq<Dirty>, j: nat,
          base: Option<Bytes>)
    requires j <= |s| && Brings(x, s, left, j)
    ensures Replay(dev, size, x, base) == Replay(dev, size, Dirties(s[j..]), base)
  {
    var top := x[|left|..];
    ReplaySameButState(dev, size, Dirties(s[j..]), top, base);
    if left == [] {
      assert x == top;
    } else {
      assert top[0] == s[j].d.(state := top[0].state) && x[|left|] == top[0];
      HiddenBelow(dev, size, x, |left|, base, base);
    }
  }

  /** Above which position a restart is certain to find the versions; those below are flushed. */
  function Floor(o: Object): nat { if o.phase.Committed? then o.phase.n else o.m }

  /** The place in each phase of the flusher. */
  lemma FindAnchor(dev: Devices, size: nat, o: Object) returns (a: nat)
    requires Inv(dev, size, o)
    ensures Floor(o) <= a && Cut(o.s, o.t, OnDisk(o), a)
    ensures Above(dev, size, o.s, OnDisk(o), a) == Newest(dev, size, o)
  {
    hide Core, PendOk, Cut, Above, Newest, NextEntry, Describes, Replay, Base;
    match o.phase {
      case OldErased(n, next) =>
        a :| o.m <= a < n && o.s[a].d.kind == BigWrite;
        FoundErased(dev, size, o, n, a);
      case Committed(n, next) =>
        a := n;
        FoundCommitted(dev, size, o, n, next);
      case _ =>
        a := o.m;
        FoundSettled(dev, size, o);
    }
  }

  lemma FoundSettled(dev: Devices, size: nat, o: Object)
    requires Core(dev, size, o)
    ensures Cut(o.s, o.t, o.clean, o.m) && Above(dev, size, o.s, o.clean, o.m) == Newest(dev, size, o)
  {
    hide Mirrors, Placed, Joined, Cut, Replay, Base;
    CutSettled(o.s, o.t, o.m, o.clean);
  }

  lemma FoundErased(dev: Devices, size: nat, o: Object, n: nat, a: nat)
    requires Core(dev, size, o) && o.m <= a < n <= |o.s| && o.s[n - 1].d.state == Stable && o.s[a].d.kind == BigWrite
    ensures Cut(o.s, o.t, None, a) && Above(dev, size, o.s, None, a) == Newest(dev, size, o)
  {
    hide Ordered, Placed, Joined, Cut;
    CutErased(o.s, |o.log|, o.t, o.m, n, a);
    HiddenFrom(dev, size, o.s, o.m, Base(dev, size, o.clean), a, None);
  }

  lemma FoundCommitted(dev: Devices, size: nat, o: Object, n: nat, next: Option<Clean>)
    requires Core(dev, size, o) && o.m < n <= |o.s| && o.s[n - 1].d.state == Stable
    requires NextEntry(o.s, o.m, n, o.clean, next, size)
    requires Base(dev, size, next) == Replay(dev, size, Dirties(o.s[o.m..n]), Base(dev, size, o.clean))
    ensures Cut(o.s, o.t, next, n) && Above(dev, size, o.s, next, n) == Newest(dev, size, o)
  {
    hide Ordered, Placed, Joined, Cut, NextEntry;
    CutCommitted(o.s, |o.log|, o.t, o.m, n, o.clean, next, size);
    ReplaySplit(dev, size, o.s, o.m, n, Base(dev, size, o.clean));
  }

  lemma CutSettled(s: seq<Ver>, t: nat, m: nat, clean: Option<Clean>)
    requires m <= |s| && Retained(s, m, t) && (m > 0 ==> s[m - 1].d.state == Stable) && Joined(s, m, clean)
    ensures Cut(s, t, clean, m)
  {
  }

  function Restarted(o: Object, j: nat): Object { Object(o.log, o.t, o.s, j, OnDisk(o), Idle, {}) }

  /** Where the clean copy joins, a small write is above something. */
  lemma NotSmall(s: seq<Ver>, m: nat, clean: Option<Clean>, j: nat)
    requires m <= j < |s| && Based(Dirties(s[m..]), clean.Some?) && Joined(s, m, clean) && Joined(s, j, None)
    ensures s[j].d.kind != SmallWrite
  {
    if s[j].d.kind == SmallWrite {
      if j > m {
        ExistsUnder(s, m, clean.Some?, j);
      } else {
        assert Dirties(s[m..])[0] == s[m].d;
        BasedPrefix(Dirties(s[m..]), clean.Some?, 1);
      }
    }
  }

  lemma PlacedAt(dev: Devices, size: nat, s: seq<Ver>, m: nat, clean: Option<Clean>, j: nat, disk: Option<Clean>)
    requires m <= j <= |s| && Placed(dev, size, Dirties(s[m..]), clean) && Joined(s, m, clean)
    requires Joined(s, j, disk) && (disk == clean || disk == None)
    ensures Placed(dev, size, Dirties(s[j..]), disk)
  {
    HousedFrom(dev, size, s, m, clean);
    if disk.None? && j < |s| { NotSmall(s, m, clean, j); }
    PlacedFrom(dev, size, s, m, clean, j, disk);
  }

  lemma RestartPlaced(dev: Devices, size: nat, o: Object, j: nat)
    requires Core(dev, size, o) && PhaseOk(dev, size, o) && Floor(o) <= j <= |o.s| && Joined(o.s, j, OnDisk(o))
    ensures Placed(dev, size, Dirties(o.s[j..]), OnDisk(o))
  {
    hide Placed, Ordered, Joined, NextEntry, Retained;
    if o.phase.Committed? {
      var n, next := o.phase.n, o.phase.next;
      PlacedCommitted(dev, size, o.s, o.m, n, o.clean, next);
      CutCommitted(o.s, |o.log|, o.t, o.m, n, o.clean, next, size);
      PlacedAt(dev, size, o.s, n, next, j, next);
    } else {
      PlacedAt(dev, size, o.s, o.m, o.clean, j, OnDisk(o));
    }
  }

  /** From a place where everything has come back on, the invariant holds again. */
  lemma RestartInv(dev: Devices, size: nat, o: Object, j: nat) returns (left: seq<Dirty>)
    requires Inv(dev, size, o) && Floor(o) <= j && Cut(o.s, o.t, OnDisk(o), j) && CameBack(Reloaded(o), o.s, j)
    ensures j <= |o.s| && Inv(dev, size, Restarted(o, j)) && Newest(dev, size, Restarted(o, j)) == Newest(dev, size, o)
    ensures Brings(Reloaded(o), o.s, left, j)
    ensures Replay(dev, size, Reloaded(o), Base(dev, size, OnDisk(o))) == Newest(dev, size, o)
  {
    hide Placed, Ordered, Rebuilds, PhaseOk, CameBack, Brings, StopsAt, Joined;
    var disk, x := OnDisk(o), Reloaded(o);
    assert Rebuilds(x, o.s, o.t, VersionIn(disk));
    var a := FindAnchor(dev, size, o);
    var h := FindCut(dev, size, x, o.s, |o.log|, o.t, disk, a);
    left := ReplayBrings(x, o.s, |o.log|, o.t, disk, h);
    BringsContents(dev, size, x, o.s, left, h, Base(dev, size, disk));
    left := ReplayBrings(x, o.s, |o.log|, o.t, disk, j);
    BringsContents(dev, size, x, o.s, left, j, Base(dev, size, disk));
    RestartPlaced(dev, size, o, j);
    PhaseIdle(dev, size, Restarted(o, j));
  }

  lemma PhaseIdle(dev: Devices, size: nat, o: Object)
    requires o.m <= |o.s| && o.phase.Idle?
    ensures PhaseOk(dev, size, o)
  {
  }

  /** Crash consistency: at every moment of every run, what a restart rebuilds is the top of the
      version history over leftovers that it hides, and reads exactly as before the crash. */
  lemma RestartPreservesContents(dev: Devices, size: nat, o: Object) returns (j: nat, left: seq<Dirty>)
    requires Inv(dev, size, o)
    ensures Floor(o) <= j <= |o.s| && Cut(o.s, o.t, OnDisk(o), j) && CameBack(Reloaded(o), o.s, j)
    ensures Brings(Reloaded(o), o.s, left, j)
    ensures Inv(dev, size, Restarted(o, j))
    ensures Newest(dev, size, Restarted(o, j)) == Newest(dev, size, o)
    ensures Replay(dev, size, Reloaded(o), Base(dev, size, OnDisk(o))) == Newest(dev, size, o)
  {
    hide Placed, Ordered, Rebuilds, PhaseOk, CameBack, Brings, Cut, Core, PendOk;
    var a := FindAnchor(dev, size, o);
    j := CutOf(dev, size, o, a);
    left := RestartInv(dev, size, o, j);
  }

  lemma CutOf(dev: Devices, size: nat, o: Object, a: nat) returns (j: nat)
    requires Inv(dev, size, o) && Cut(o.s, o.t, OnDisk(o), a)
    ensures a <= j <= |o.s| && Cut(o.s, o.t, OnDisk(o), j) && CameBack(Reloaded(o), o.s, j)
  {
    hide Placed, Ordered, Rebuilds, PhaseOk, CameBack, Cut;
    assert Rebuilds(Reloaded(o), o.s, o.t, VersionIn(OnDisk(o)));
    j := FindCut(dev, size, Reloaded(o), o.s, |o.log|, o.t, OnDisk(o), a);
  }

  lemma EarlierInv(dev: Devices, size: nat, o: Object, t: nat)
    requires Inv(dev, size, o) && t <= o.t
    ensures Inv(dev, size, o.(t := t)) && Newest(dev, size, o.(t := t)) == Newest(dev, size, o)
  {
    hide Placed, Joined, Mirrors, Replay, NextEntry, Awaited, Clear;
  }

  /** A replay that starts earlier, with entries that are trimmed already, changes nothing. */
  lemma EarlierStart(dev: Devices, size: nat, o: Object, t: nat)
    requires Inv(dev, size, o) && t <= o.t <= |o.log|
    ensures var x := ReplayLog(o.log[t..], VersionIn(OnDisk(o)));
            Replay(dev, size, x, Base(dev, size, OnDisk(o))) == Newest(dev, size, o)
  {
    hide Inv, Replay, ReplayLog, Newest, Cut, CameBack, Brings;
    EarlierInv(dev, size, o, t);
    var j, left := RestartPreservesContents(dev, size, o.(t := t));
  }
}
