/** Object versions and the meaning of a stack of them: the byte map that the clean copy and
    the dirty versions stand for when they are applied from the oldest to the newest. */
module Versions {
  import opened Basics
  import opened Overlay

  datatype Kind = SmallWrite | BigWrite | Delete

  /** The workflow part of an entry's state, in the order of its numeric codes. */
  datatype State = WaitDel | WaitBig | InFlight | Submitted | Written | Synced | Stable

  function Rank(s: State): nat {
    match s
    case WaitDel => 1 case WaitBig => 2 case InFlight => 3 case Submitted => 4
    case Written => 5 case Synced => 6 case Stable => 7
  }

  predicate IsInFlight(s: State) { Rank(s) <= Rank(Submitted) }

  predicate IsSynced(s: State) { Rank(s) >= Rank(Synced) }

  /** One dirty version: small writes keep their data in the journal at `location`, big writes
      own the data block at `location` and store position `p` at `location + p`. */
  datatype Dirty = Dirty(version: nat, kind: Kind, state: State, instant: bool,
                         location: int, offset: nat, len: nat, sector: nat)
  {
    function End(): nat { offset + len }

    predicate InRange(p: int) { offset <= p < End() }

    predicate IsInstant() { kind == Delete || instant }
  }

  /** A version that everything below it is hidden by. */
  predicate Barrier(d: Dirty) { d.kind != SmallWrite }

  function IndexOf(s: seq<Dirty>, version: nat): (i: int)
    ensures i == -1 || (0 <= i < |s| && s[i].version == version)
    ensures i == -1 ==> forall k :: 0 <= k < |s| ==> s[k].version != version
  {
    if s == [] then -1 else if Last(s).version == version then |s| - 1 else IndexOf(Front(s), version)
  }

  /** Up to which entry an instant entry drags the synced ones above it along. */
  function Forward(s: seq<Dirty>, i: nat): (j: nat)
    requires i < |s|
    ensures i <= j < |s| && forall k :: i < k <= j ==> IsSynced(s[k].state)
    ensures j + 1 < |s| ==> !IsSynced(s[j + 1].state)
    decreases |s| - i
  {
    if i + 1 < |s| && IsSynced(s[i + 1].state) then Forward(s, i + 1) else i
  }

  /** The clean copy: its data block and the bitmap of the granules written in it. */
  datatype Clean = Clean(version: nat, location: int, bitmap: seq<bool>)
  {
    predicate Bit(p: int) { 0 <= p < |bitmap| && bitmap[p] }
  }

  type Bytes = seq<Granule>

  /** Positive version numbers, every range inside a block of `size` granules. */
  ghost predicate ValidStack(s: seq<Dirty>, size: nat) {
    forall i :: 0 <= i < |s| ==> s[i].version > 0 && s[i].End() <= size
  }

  function CleanByte(dev: Devices, c: Clean, p: int): Granule {
    if c.Bit(p) then dev.At(Data, c.location + p) else 0
  }

  function CleanBytes(dev: Devices, size: nat, c: Clean): (b: Bytes)
    ensures |b| == size
  {
    seq(size, p requires 0 <= p < size => CleanByte(dev, c, p))
  }

  function Base(dev: Devices, size: nat, clean: Option<Clean>): Option<Bytes> {
    if clean.None? then None else Some(CleanBytes(dev, size, clean.value))
  }

  function BigByte(dev: Devices, d: Dirty, p: int): Granule {
    if d.InRange(p) then dev.At(Data, d.location + p) else 0
  }

  function SmallByte(dev: Devices, d: Dirty, p: int): Granule {
    dev.At(Journal, d.location + p - d.offset)
  }

  function ByteOf(b: Option<Bytes>, p: int): Granule {
    if b.Some? && 0 <= p < |b.value| then b.value[p] else 0
  }

  /** One version applied over what was there before. */
  function Apply(dev: Devices, size: nat, d: Dirty, cur: Option<Bytes>): Option<Bytes> {
    match d.kind
    case Delete => None
    case BigWrite => Some(seq(size, p requires 0 <= p < size => BigByte(dev, d, p)))
    case SmallWrite => Some(seq(size, p requires 0 <= p < size =>
                              if d.InRange(p) then SmallByte(dev, d, p) else ByteOf(cur, p)))
  }

  /** The versions of `s`, oldest to newest, applied over `base`. */
  function Replay(dev: Devices, size: nat, s: seq<Dirty>, base: Option<Bytes>): Option<Bytes>
    decreases |s|
  {
    if s == [] then base else Apply(dev, size, s[|s| - 1], Replay(dev, size, s[..|s| - 1], base))
  }

  /** Whether the object exists after the versions of `s`. */
  predicate Exists(s: seq<Dirty>, clean: bool) {
    if s == [] then clean else s[|s| - 1].kind != Delete
  }

  /** The last of the first `n` entries that is a big write, with only small ones above it. */
  predicate LastBig(s: seq<Dirty>, n: nat, b: nat) {
    b < n <= |s| && s[b].kind == BigWrite && forall i :: b < i < n ==> s[i].kind == SmallWrite
  }

  predicate AllStable(s: seq<Dirty>) { forall i :: 0 <= i < |s| ==> s[i].state == Stable }

  /** A small write is only ever placed over an existing object: the first write of an absent
      object and the first write over a delete are big (src/blockstore/blockstore_write.cpp:160). */
  predicate Based(s: seq<Dirty>, clean: bool)
    decreases |s|
  {
    s == [] || (
      && Based(s[..|s| - 1], clean)
      && (s[|s| - 1].kind == SmallWrite ==> Exists(s[..|s| - 1], clean)))
  }

  predicate VisibleTo(d: Dirty, version: nat) { !IsInFlight(d.state) && version >= d.version }

  /** The versions that a read at `version` takes into account. */
  function Visible(s: seq<Dirty>, version: nat): (r: seq<Dirty>)
    ensures forall d :: d in r ==> d in s && VisibleTo(d, version)
    decreases |s|
  {
    if s == [] then [] else
    var rest := Visible(s[..|s| - 1], version);
    if VisibleTo(s[|s| - 1], version) then rest + [s[|s| - 1]] else rest
  }

  lemma {:induction false} ReplayExists(dev: Devices, size: nat, s: seq<Dirty>, clean: Option<Clean>)
    ensures Replay(dev, size, s, Base(dev, size, clean)).Some? <==> Exists(s, clean.Some?)
    ensures Replay(dev, size, s, Base(dev, size, clean)).Some? ==>
      |Replay(dev, size, s, Base(dev, size, clean)).value| == size
  {
    if s != [] { ReplayExists(dev, size, s[..|s| - 1], clean); }
  }

  lemma {:induction false} ReplayConcat(dev: Devices, size: nat, a: seq<Dirty>, b: seq<Dirty>, base: Option<Bytes>)
    ensures Replay(dev, size, a + b, base) == Replay(dev, size, b, Replay(dev, size, a, base))
    decreases |b|
  {
    if b == [] {
      assert a + b == a;
    } else {
      assert (a + b)[..|a + b| - 1] == a + b[..|b| - 1];
      ReplayConcat(dev, size, a, b[..|b| - 1], base);
    }
  }
}
