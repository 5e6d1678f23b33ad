/** The store together with the devices: a write that has completed is read back, and a flush leaves the database
    and the disk in agreement about where the object is. */
module Service {
  import opened Basics
  import opened Overlay
  import opened Versions
  import opened Counters
  import opened Stability
  import opened Reads
  import opened Flush
  import opened Answers
  import opened Store

  // ----- a completed write is read back

  /** What completing an entry makes of it: written, synced or stable, under its number and with its data. */
  lemma CompletedEntry(x: Obj, i: nat, durable: bool)
    requires i < |x.stack| && CanComplete(x, i, durable)
    ensures var d := AfterWrite(x, i, durable)[i];
            d == x.stack[i].(state := d.state) && d.state in {Written, Synced, Stable}
  {
  }

  lemma CompletedVersions(x: Obj, i: nat, durable: bool, k: nat)
    requires i < |x.stack| && k < |x.stack|
    ensures AfterWrite(x, i, durable)[k].version == x.stack[k].version
  {
  }

  /** It is the newest finished version for a read at its number. */
  lemma CompletedNewest(x: Obj, i: nat, durable: bool)
    requires ObjOk(x) && i < |x.stack| && CanComplete(x, i, durable)
    ensures NewestAt(AfterWrite(x, i, durable), x.stack[i].version, i)
  {
    hide AfterWrite, StackOk;
    var s := AfterWrite(x, i, durable);
    CompletedEntry(x, i, durable);
    forall k | i < k < |s| ensures s[k].version > x.stack[i].version {
      CompletedVersions(x, i, durable, k);
      StableBelow(x.stack, CleanVersion(x.clean), x.clean.Some?, i, k);
    }
  }

  /** After the end of a write a read at its version returns it, even if it is not synced yet: its version, and its
      bytes in its range. After the end of a delete the object is not found. */
  method CompleteThenRead(st: Store, o: nat, version: nat, durable: bool, dev: Devices, size: nat,
          clean: Option<Clean>, offset: nat, len: nat) returns (r: ReadResult)
    requires st.Valid() && st.Has(o, version)
    requires CanComplete(ObjOf(st.db, o), IndexOf(ObjOf(st.db, o).stack, version), durable)
    requires 0 < len && offset + len <= size
    requires ValidStack(ObjOf(st.db, o).stack, size)
    requires clean.Some? ==> clean.value.version > 0 && |clean.value.bitmap| == size
    modifies st
    ensures var d := old(st.Entry(o, version));
            && (r == ReadResult.NotFound <==> d.kind == Delete)
            && (d.kind == BigWrite ==> r.Found?)
            && (d.kind == SmallWrite && d.offset <= offset && offset + len <= d.offset + d.len ==> r.Found?)
            && (r.Found? ==>
                  && r.version == version && |r.buf| == len
                  && forall p :: offset <= p < offset + len && d.offset <= p < d.offset + d.len ==>
                       r.buf[p - offset] == StoredByte(dev, d, p))
  {
    hide AfterWrite, StackOk, Answer, CanComplete, NewestAt, KeepsRipe;
    ghost var x := ObjOf(st.db, o);
    ghost var i := IndexOf(x.stack, version);
    ObjOkOf(st.db, o);
    CompletedNewest(x, i, durable);
    CompletedEntry(x, i, durable);
    CompletedValid(x, i, durable, size);
    st.Complete(o, version, durable);
    var s := ObjOf(st.db, o).stack;
    r := DequeueRead(dev, size, s, clean, version, offset, len);
    if s[i].kind == Delete {
      DeletedNotFound(dev, size, s, clean, version, offset, len, i);
    } else {
      WrittenIsFound(dev, size, s, clean, version, offset, len, i);
      ghost var d := x.stack[i];
      assert s[i] == d.(state := s[i].state);
      assert forall p :: StoredByte(dev, s[i], p) == StoredByte(dev, d, p);
    }
  }

  lemma CompletedValid(x: Obj, i: nat, durable: bool, size: nat)
    requires i < |x.stack| && ValidStack(x.stack, size)
    ensures ValidStack(AfterWrite(x, i, durable), size)
  {
    var s := AfterWrite(x, i, durable);
    forall k | 0 <= k < |s| ensures s[k].version > 0 && s[k].End() <= size {}
  }

  // ----- database and disk agree after a flush

  /** The clean entry of the database is the one on the disk. */
  predicate Matches(ref: Option<CleanRef>, clean: Option<Clean>) {
    if clean.None? then ref.None? else ref == Some(CleanRef(clean.value.version, clean.value.location))
  }

  lemma {:induction false} StackBased(s: seq<Dirty>, lo: nat, clean: bool)
    requires StackOk(s, lo, clean)
    ensures Based(s, clean)
    decreases |s|
  {
    if s != [] { StackBased(Front(s), lo, clean); }
  }

  lemma {:induction false} FindBig(s: seq<Dirty>, lo: nat, clean: bool) returns (b: int)
    requires StackOk(s, lo, clean) && s != [] && Last(s).kind != Delete
    ensures if b == -1 then forall i :: 0 <= i < |s| ==> s[i].kind == SmallWrite
            else 0 <= b < |s| && LastBig(s, |s|, b)
    decreases |s|
  {
    if Last(s).kind == BigWrite {
      b := |s| - 1;
    } else if |s| == 1 {
      b := -1;
    } else {
      b := FindBig(Front(s), lo, clean);
    }
  }

  lemma LastBigPrefix(s: seq<Dirty>, n: nat, b: nat)
    requires n <= |s| && LastBig(s[..n], n, b)
    ensures LastBig(s, n, b) && s[..n][b] == s[b]
  {
    assert forall i :: 0 <= i < n ==> s[..n][i] == s[i];
  }

  /** The block that the flusher aims at is the one that the database keeps. */
  lemma SameTarget(x: Obj, n: nat, ref: Option<CleanRef>, plan: Plan, clean: Option<Clean>)
    requires ObjOk(x) && 0 < n <= |x.stack| && Matches(x.clean, clean)
    requires Settles(x, n, ref) && Aims(plan, x.stack[..n]) && !plan.hasDelete
    ensures ref == Some(CleanRef(x.stack[n - 1].version, Target(plan, clean)))
  {
    hide StackOk, LastBig;
    var p := x.stack[..n];
    StackPrefix(x.stack, CleanVersion(x.clean), x.clean.Some?, n);
    var b := FindBig(p, CleanVersion(x.clean), x.clean.Some?);
    if b >= 0 {
      LastBigPrefix(x.stack, n, b);
    } else {
      assert forall i :: 0 <= i < n ==> x.stack[i].kind == p[i].kind;
    }
  }

  /** A whole flush of the first `n` versions: the data is copied, the metadata entry written and the database
      brought up to date. The new clean copy means what the versions and the old copy meant; the database has the
      block that the data is in, and that block is allocated. */
  method FlushThenFinish(st: Store, o: nat, n: nat, dev: Devices, size: nat, clean: Option<Clean>)
      returns (dev': Devices, clean': Option<Clean>)
    requires st.Valid() && 0 < n <= |ObjOf(st.db, o).stack| && Matches(ObjOf(st.db, o).clean, clean)
    requires forall i :: 0 <= i < n ==> ObjOf(st.db, o).stack[i].state == Stable
    requires ValidStack(ObjOf(st.db, o).stack, size)
    requires clean.Some? ==>
      |clean.value.bitmap| == size && 0 <= clean.value.location && clean.value.location + size <= |dev.data|
    requires forall d :: d in ObjOf(st.db, o).stack && d.kind == BigWrite ==>
      0 <= d.location && d.location + size <= |dev.data|
    modifies st
    ensures st.Valid() && Matches(ObjOf(st.db, o).clean, clean')
    ensures clean'.Some? ==> clean'.value.location in st.c.alloc
    ensures Base(dev', size, clean')
         == Replay(dev, size, old(ObjOf(st.db, o)).stack[..n], Base(dev, size, clean))
  {
    hide StackOk, Settles, Frees, Aims, KeepsRipe, NewClean, Describes;
    ghost var x := ObjOf(st.db, o);
    ObjOkOf(st.db, o);
    var p := ObjOf(st.db, o).stack[..n];
    StackPrefix(x.stack, CleanVersion(x.clean), x.clean.Some?, n);
    StackBased(p, CleanVersion(x.clean), x.clean.Some?);
    var plan;
    dev', clean', plan := FlushObject(dev, size, p, clean);
    st.FinishFlush(o, n);
    ghost var ref := ObjOf(st.db, o).clean;
    SettledKind(x, n, ref, plan);
    if !plan.hasDelete { SameTarget(x, n, ref, plan, clean); }
    if ref.Some? { KeptAllocated(x, n, ref, old(st.c.alloc), st.c.alloc); }
  }

  lemma SettledKind(x: Obj, n: nat, ref: Option<CleanRef>, plan: Plan)
    requires 0 < n <= |x.stack| && Settles(x, n, ref) && Aims(plan, x.stack[..n])
    ensures ref.None? <==> plan.hasDelete
  {
    hide LastBig;
  }

  lemma KeptAllocated(x: Obj, n: nat, ref: Option<CleanRef>, alloc: set<int>, alloc': set<int>)
    requires n <= |x.stack| && Frees(x, n, ref, alloc, alloc') && ref.Some?
    ensures ref.value.location in alloc'
  {
  }
}
