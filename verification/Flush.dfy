/** Flushing an object: folding its stable versions into the clean copy. */
module Flush {
  import opened Basics
  import opened Overlay
  import opened Versions
  import opened Reads

  /** What `scan_dirty` leaves behind: the journal copies to make and where the clean copy will be. */
  datatype Plan = Plan(v: seq<CopyItem>, copyCount: nat, cleanLoc: Option<int>, hasDelete: bool, hasWrites: bool,
                       initBitmap: bool, bmpOffset: nat, bmpLen: nat)

  ghost predicate JournalOnly(v: seq<CopyItem>) { forall x :: x in v ==> x.medium == Journal }

  /** What lies under the copies of a plan at position `p`. */
  function Ground(dev: Devices, size: nat, plan: Plan, clean: Option<Clean>, p: int): Granule {
    if plan.initBitmap then
      (if plan.bmpOffset <= p < plan.bmpOffset + plan.bmpLen && plan.cleanLoc.Some?
       then dev.At(Data, plan.cleanLoc.value + p) else 0)
    else if clean.Some? && 0 <= p < size then CleanByte(dev, clean.value, p) else 0
  }

  /** The plan describes the replay of `stack` over the clean copy, whatever the devices hold. */
  ghost predicate Describes(plan: Plan, size: nat, stack: seq<Dirty>, clean: Option<Clean>) {
    && plan.copyCount == |plan.v| && Sorted(plan.v) && Within(plan.v, 0, size) && JournalOnly(plan.v)
    && (plan.initBitmap <==> plan.cleanLoc.Some?)
    && (plan.initBitmap ==>
          exists k :: 0 <= k < |stack| && stack[k].kind == BigWrite && plan.cleanLoc == Some(stack[k].location))
    && plan.hasDelete != plan.hasWrites
    && (plan.hasDelete ==> plan.v == [] && !plan.initBitmap)
    && (plan.hasWrites && !plan.initBitmap ==> clean.Some?)
    && forall dev: Devices {:trigger Replay(dev, size, stack, Base(dev, size, clean))} ::
      var whole := Replay(dev, size, stack, Base(dev, size, clean));
      && (plan.hasDelete ==> whole.None?)
      && (plan.hasWrites ==> Planned(dev, size, plan, clean, whole))
  }

  ghost predicate Planned(dev: Devices, size: nat, plan: Plan, clean: Option<Clean>, whole: Option<Bytes>) {
    && whole.Some? && |whole.value| == size
    && forall p :: 0 <= p < size ==> whole.value[p] == Shown(Image(plan.v, dev, p), Ground(dev, size, plan, clean, p))
  }

  /** The part of the scan that is over when the versions from index `k` on have been looked at
      and none of them was a big write or a delete. */
  ghost predicate Collected(v: seq<CopyItem>, size: nat, stack: seq<Dirty>, clean: Option<Clean>, k: nat)
    requires k <= |stack|
  {
    && Sorted(v) && Within(v, 0, size) && JournalOnly(v)
    && (forall dev: Devices {:trigger Replay(dev, size, stack, Base(dev, size, clean))} ::
          k < |stack| ==>
            Resolves(dev, size, v, stack[..k], clean, 0, size, Replay(dev, size, stack, Base(dev, size, clean))))
    && (k == |stack| ==> v == [])
  }

  lemma CollectSmall(v: seq<CopyItem>, v': seq<CopyItem>, size: nat, stack: seq<Dirty>, clean: Option<Clean>, k: nat)
    requires k < |stack| && ValidStack(stack, size) && Collected(v, size, stack, clean, k + 1)
    requires stack[k].kind == SmallWrite
    requires Sorted(v') && Within(v', 0, size) && JournalOnly(v')
    requires Fills(v', v, stack[k].offset, stack[k].End(), Filler(Journal, stack[k].location, stack[k].offset))
    ensures Collected(v', size, stack, clean, k)
  {
    forall dev: Devices
      ensures Resolves(dev, size, v', stack[..k], clean, 0, size, Replay(dev, size, stack, Base(dev, size, clean)))
    {
      var whole := Replay(dev, size, stack, Base(dev, size, clean));
      assert stack[..k + 1] == stack[..k] + [stack[k]];
      if k + 1 == |stack| {
        assert stack[..k + 1] == stack;
        ReplayExists(dev, size, stack, clean);
        assert forall p :: Image(v, dev, p).None?;
      }
      assert Resolves(dev, size, v, stack[..k] + [stack[k]], clean, 0, size, whole);
      ResolvesStep(dev, size, v, v', stack[..k], stack[k], clean, 0, size, whole);
    }
  }

  /** The scan meets a big write: everything below it is covered by it. */
  lemma CollectBig(plan: Plan, size: nat, stack: seq<Dirty>, clean: Option<Clean>, k: nat)
    requires k < |stack| && ValidStack(stack, size) && Collected(plan.v, size, stack, clean, k + 1)
    requires stack[k].kind == BigWrite
    requires plan.copyCount == |plan.v| && plan.hasWrites && !plan.hasDelete && plan.initBitmap
    requires plan.cleanLoc == Some(stack[k].location) && plan.bmpOffset == stack[k].offset
    requires plan.bmpLen == stack[k].len
    ensures Describes(plan, size, stack, clean)
  {
    forall dev: Devices
      ensures Planned(dev, size, plan, clean, Replay(dev, size, stack, Base(dev, size, clean)))
    {
      var whole := Replay(dev, size, stack, Base(dev, size, clean));
      assert stack[..k + 1][..k] == stack[..k];
      if k + 1 == |stack| {
        assert stack[..k + 1] == stack;
        assert forall p :: Image(plan.v, dev, p).None?;
      }
    }
  }

  /** The scan meets a delete: nothing can be above it. */
  lemma CollectDelete(plan: Plan, size: nat, stack: seq<Dirty>, clean: Option<Clean>)
    requires stack != [] && stack[|stack| - 1].kind == Delete
    requires plan == Plan([], 0, None, true, false, false, 0, 0)
    ensures Describes(plan, size, stack, clean)
  {
  }

  /** The scan runs out of versions: the copies go over the old clean data. */
  lemma CollectAll(plan: Plan, size: nat, stack: seq<Dirty>, clean: Option<Clean>)
    requires stack != [] && Collected(plan.v, size, stack, clean, 0)
    requires clean.Some?
    requires plan.copyCount == |plan.v| && plan.hasWrites && !plan.hasDelete && !plan.initBitmap && plan.cleanLoc.None?
    ensures Describes(plan, size, stack, clean)
  {
    forall dev: Devices
      ensures Planned(dev, size, plan, clean, Replay(dev, size, stack, Base(dev, size, clean)))
    {
      assert stack[..0] == [];
      assert Resolves(dev, size, plan.v, stack[..0], clean, 0, size, Replay(dev, size, stack, Base(dev, size, clean)));
    }
  }

  lemma {:induction false} BasedPrefix(s: seq<Dirty>, clean: bool, k: nat)
    requires k <= |s| && Based(s, clean)
    ensures Based(s[..k], clean)
    decreases |s|
  {
    if k == |s| {
      assert s[..k] == s;
    } else {
      BasedPrefix(s[..|s| - 1], clean, k);
      assert s[..|s| - 1][..k] == s[..k];
    }
  }

  /** The journal copies of one small write. */
  method CopySmall(v: seq<CopyItem>, size: nat, d: Dirty) returns (v': seq<CopyItem>)
    requires Sorted(v) && Within(v, 0, size) && JournalOnly(v) && d.End() <= size
    ensures Sorted(v') && Within(v', 0, size) && JournalOnly(v')
    ensures Fills(v', v, d.offset, d.End(), Filler(Journal, d.location, d.offset))
  {
    v' := v;
    if d.len != 0 {
      var calls, filled;
      v', calls, filled := FindHoles(v, d.offset, d.End(), Filler(Journal, d.location, d.offset), 0, 0, size);
    }
  }

  /** The plan is for the block of the last big write, or for the clean block if there are only small writes, or for a
      delete if that is the newest version. */
  ghost predicate Aims(plan: Plan, stack: seq<Dirty>)
    requires stack != []
  {
    && (plan.hasDelete <==> Last(stack).kind == Delete)
    && (forall b: nat :: LastBig(stack, |stack|, b) ==> plan.cleanLoc == Some(stack[b].location))
    && ((forall i :: 0 <= i < |stack| ==> stack[i].kind == SmallWrite) ==> plan.cleanLoc.None?)
  }

  lemma BigAims(plan: Plan, stack: seq<Dirty>, k: nat)
    requires LastBig(stack, |stack|, k) && plan.cleanLoc == Some(stack[k].location) && !plan.hasDelete
    ensures Aims(plan, stack)
  {
    forall b: nat | LastBig(stack, |stack|, b) ensures b == k {}
  }

  /** `scan_dirty`: the newest-first scan plans exactly the oldest-to-newest replay of the stack.
      `ok` is false where the code throws on an unstable version. */
  method ScanDirty(stack: seq<Dirty>, size: nat, ghost clean: Option<Clean>) returns (ok: bool, plan: Plan)
    requires stack != [] && ValidStack(stack, size) && Based(stack, clean.Some?)
    ensures ok <==> AllStable(stack)
    ensures ok ==> Describes(plan, size, stack, clean) && Aims(plan, stack)
  {
    ok, plan := true, Plan([], 0, None, false, false, false, 0, 0);
    var skipCopy := false;
    var k := |stack|;
    while k > 0
      invariant 0 <= k <= |stack|
      invariant forall j :: k <= j < |stack| ==> stack[j].state == Stable
      invariant skipCopy ==> Describes(plan, size, stack, clean) && Aims(plan, stack)
      invariant !skipCopy ==> forall j :: k <= j < |stack| ==> stack[j].kind == SmallWrite
      invariant !skipCopy ==>
        && plan == Plan(plan.v, |plan.v|, None, false, k < |stack|, false, 0, 0)
        && Collected(plan.v, size, stack, clean, k)
        && (k < |stack| ==> Exists(stack[..k], clean.Some?))
    {
      k := k - 1;
      var d := stack[k];
      if d.state != Stable {
        assert d in stack;
        return false, plan;
      }
      BasedPrefix(stack, clean.Some?, k + 1);
      assert stack[..k + 1][..k] == stack[..k];
      if d.kind == SmallWrite && !skipCopy {
        var v := CopySmall(plan.v, size, d);
        CollectSmall(plan.v, v, size, stack, clean, k);
        plan := plan.(hasWrites := true, v := v, copyCount := |v|);
      } else if d.kind == BigWrite && !skipCopy {
        plan := plan.(hasWrites := true, cleanLoc := Some(d.location), initBitmap := true,
                    bmpOffset := d.offset, bmpLen := d.len);
        CollectBig(plan, size, stack, clean, k);
        BigAims(plan, stack, k);
        skipCopy := true;
      } else if d.kind == Delete && !skipCopy {
        plan := plan.(hasDelete := true);
        CollectDelete(plan, size, stack, clean);
        skipCopy := true;
      }
    }
    if !skipCopy {
      assert stack[..0] == [];
      CollectAll(plan, size, stack, clean);
    }
  }

  /** Where a plan that writes puts the object. */
  function Target(plan: Plan, clean: Option<Clean>): int {
    if plan.cleanLoc.Some? then plan.cleanLoc.value else if clean.Some? then clean.value.location else 0
  }

  /** `after` differs from `before` at most in the granules that the copies go to: this is every
      state the data device can be in while the copies are being written, torn writes included. */
  ghost predicate Torn(before: Devices, after: Devices, loc: int, v: seq<CopyItem>) {
    && after.journal == before.journal && |after.data| == |before.data|
    && forall q :: 0 <= q < |before.data| && !Covered(v, q - loc) ==> after.data[q] == before.data[q]
  }

  /** All copies have been written. */
  ghost predicate Copied(before: Devices, after: Devices, loc: int, v: seq<CopyItem>) {
    && Torn(before, after, loc, v)
    && forall q :: 0 <= q < |before.data| && Covered(v, q - loc) ==> Some(after.data[q]) == Image(v, before, q - loc)
  }

  lemma JournalImage(v: seq<CopyItem>, a: Devices, b: Devices, p: int)
    requires JournalOnly(v) && Sorted(v) && a.journal == b.journal
    ensures Image(v, a, p) == Image(v, b, p)
  {
    if k :| 0 <= k < |v| && v[k].Covers(p) {
      ImageAt(v, a, p, k);
      ImageAt(v, b, p, k);
      assert v[k] in v;
    }
  }

  function WriteAt(data: seq<Granule>, loc: int, it: CopyItem, dev: Devices, q: int): Granule
    requires 0 <= q < |data|
  {
    if it.Covers(q - loc) then it.Value(dev, q - loc) else data[q]
  }

  function WriteItem(data: seq<Granule>, loc: int, it: CopyItem, dev: Devices): seq<Granule> {
    seq(|data|, q requires 0 <= q < |data| => WriteAt(data, loc, it, dev, q))
  }

  /** The data writes of a flush. */
  method WriteCopies(dev: Devices, loc: int, v: seq<CopyItem>) returns (dev': Devices)
    requires Sorted(v) && JournalOnly(v)
    ensures Copied(dev, dev', loc, v)
  {
    var data := dev.data;
    for i := 0 to |v|
      invariant |data| == |dev.data|
      invariant forall q :: 0 <= q < |data| && !Covered(v, q - loc) ==> data[q] == dev.data[q]
      invariant forall k, q :: 0 <= k < i && 0 <= q < |data| && v[k].Covers(q - loc) ==>
        data[q] == v[k].Value(dev, q - loc)
    {
      data := WriteItem(data, loc, v[i], dev);
    }
    dev' := Devices(dev.journal, data);
    forall q | 0 <= q < |dev.data| && Covered(v, q - loc) ensures Some(data[q]) == Image(v, dev, q - loc) {
      var k :| 0 <= k < |v| && v[k].Covers(q - loc);
      ImageAt(v, dev, q - loc, k);
    }
  }

  /** `bitmap_set`. */
  function SetBits(bitmap: seq<bool>, offset: nat, len: nat): (r: seq<bool>)
    ensures |r| == |bitmap|
    ensures forall p :: 0 <= p < |r| ==> (r[p] <==> bitmap[p] || offset <= p < offset + len)
  {
    seq(|bitmap|, p requires 0 <= p < |bitmap| => bitmap[p] || offset <= p < offset + len)
  }

  /** Whether position `p` holds data after the flush. */
  ghost predicate NewBit(plan: Plan, clean: Option<Clean>, p: int) {
    || Covered(plan.v, p)
    || (if plan.initBitmap then plan.bmpOffset <= p < plan.bmpOffset + plan.bmpLen
        else clean.Some? && clean.value.Bit(p))
  }

  /** The bitmap part of `update_metadata_entry`. */
  method UpdateBitmap(plan: Plan, size: nat, clean: Option<Clean>) returns (bitmap: seq<bool>)
    requires !plan.initBitmap ==> clean.Some? && |clean.value.bitmap| == size
    ensures |bitmap| == size
    ensures forall p :: 0 <= p < size ==> (bitmap[p] <==> NewBit(plan, clean, p))
  {
    bitmap := seq(size, _ => false);
    if plan.initBitmap {
      bitmap := SetBits(bitmap, plan.bmpOffset, plan.bmpLen);
    } else {
      bitmap := clean.value.bitmap;
    }
    ghost var start := bitmap;
    for i := 0 to |plan.v|
      invariant |bitmap| == size
      invariant forall p :: 0 <= p < size ==> (bitmap[p] <==> start[p] || exists k :: 0 <= k < i && plan.v[k].Covers(p))
    {
      bitmap := SetBits(bitmap, plan.v[i].offset, plan.v[i].len);
    }
  }

  /** Before the new metadata entry is written, the stack over the old clean copy still reads the
      same although the copies have been partly written, possibly into the old clean block itself:
      every granule they touch is hidden by a version of the stack. */
  lemma TornIsHidden(dev: Devices, dev': Devices, size: nat, stack: seq<Dirty>, clean: Option<Clean>, plan: Plan)
    requires Describes(plan, size, stack, clean) && plan.hasWrites
    requires Torn(dev, dev', Target(plan, clean), plan.v)
    ensures Replay(dev', size, stack, Base(dev', size, clean)) == Replay(dev, size, stack, Base(dev, size, clean))
  {
    var a := Replay(dev, size, stack, Base(dev, size, clean));
    var b := Replay(dev', size, stack, Base(dev', size, clean));
    assert Planned(dev, size, plan, clean, a) && Planned(dev', size, plan, clean, b);
    forall p | 0 <= p < size ensures a.value[p] == b.value[p] {
      JournalImage(plan.v, dev, dev', p);
      if !Covered(plan.v, p) {
        assert !Covered(plan.v, (Target(plan, clean) + p) - Target(plan, clean));
      }
    }
    assert a.value == b.value;
  }

  lemma FlushedByte(dev: Devices, dev': Devices, size: nat, clean: Option<Clean>, plan: Plan, clean': Clean, p: int)
    requires 0 <= p < size && (plan.initBitmap ==> plan.cleanLoc.Some?)
    requires !plan.initBitmap ==> plan.cleanLoc.None? && clean.Some?
    requires Copied(dev, dev', Target(plan, clean), plan.v)
    requires 0 <= Target(plan, clean) && Target(plan, clean) + size <= |dev.data|
    requires clean'.location == Target(plan, clean) && |clean'.bitmap| == size
    requires clean'.bitmap[p] <==> NewBit(plan, clean, p)
    ensures CleanByte(dev', clean', p) == Shown(Image(plan.v, dev, p), Ground(dev, size, plan, clean, p))
  {
    var q := clean'.location + p;
    assert q - clean'.location == p;
    if Covered(plan.v, p) {
      assert Some(dev'.data[q]) == Image(plan.v, dev, p);
    } else {
      assert dev'.data[q] == dev.data[q];
    }
  }

  /** Once the copies and the new metadata entry are in place, the clean copy alone reads as the
      whole stack did. */
  lemma FlushedCopyIsTheStack(dev: Devices, dev': Devices, size: nat, stack: seq<Dirty>, clean: Option<Clean>,
          plan: Plan, clean': Clean)
    requires Describes(plan, size, stack, clean) && plan.hasWrites
    requires Copied(dev, dev', Target(plan, clean), plan.v)
    requires 0 <= Target(plan, clean) && Target(plan, clean) + size <= |dev.data|
    requires clean'.location == Target(plan, clean) && |clean'.bitmap| == size
    requires forall p :: 0 <= p < size ==> (clean'.bitmap[p] <==> NewBit(plan, clean, p))
    ensures Base(dev', size, Some(clean')) == Replay(dev, size, stack, Base(dev, size, clean))
  {
    var a := Replay(dev, size, stack, Base(dev, size, clean));
    assert Planned(dev, size, plan, clean, a);
    forall p | 0 <= p < size ensures a.value[p] == CleanByte(dev', clean', p) {
      FlushedByte(dev, dev', size, clean, plan, clean', p);
    }
    assert a.value == CleanBytes(dev', size, clean');
  }

  /** A complete flush of the stable versions of an object, with no crash in between: the new clean
      copy means what the clean copy and the stack meant together, and a delete leaves nothing. */
  method FlushObject(dev: Devices, size: nat, stack: seq<Dirty>, clean: Option<Clean>)
    returns (dev': Devices, clean': Option<Clean>, plan: Plan)
    requires stack != [] && ValidStack(stack, size) && Based(stack, clean.Some?) && AllStable(stack)
    requires clean.Some? ==>
      |clean.value.bitmap| == size && 0 <= clean.value.location && clean.value.location + size <= |dev.data|
    requires forall d :: d in stack && d.kind == BigWrite ==> 0 <= d.location && d.location + size <= |dev.data|
    ensures Describes(plan, size, stack, clean) && Aims(plan, stack)
    ensures Base(dev', size, clean') == Replay(dev, size, stack, Base(dev, size, clean))
    ensures plan.hasDelete ==> clean'.None? && dev' == dev
    ensures plan.hasWrites ==>
      && clean'.Some? && clean'.value.version == stack[|stack| - 1].version
      && clean'.value.location == Target(plan, clean)
      && |clean'.value.bitmap| == size && Torn(dev, dev', Target(plan, clean), plan.v)
  {
    var ok;
    ok, plan := ScanDirty(stack, size, clean);
    if plan.hasDelete {
      assert Replay(dev, size, stack, Base(dev, size, clean)).None?;
      return dev, None, plan;
    }
    var loc := Target(plan, clean);
    dev' := WriteCopies(dev, loc, plan.v);
    var bitmap := UpdateBitmap(plan, size, clean);
    clean' := Some(Clean(stack[|stack| - 1].version, loc, bitmap));
    FlushedCopyIsTheStack(dev, dev', size, stack, clean, plan, clean'.value);
  }
}
