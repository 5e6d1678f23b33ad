/** Reading an object: dirty versions are consulted from the newest to the oldest, each one
    filling only the positions that newer ones left open, and the clean copy comes last. */
module Reads {
  import opened Basics
  import opened Overlay
  import opened Versions

  /** `Asserted` is the end of the process by one of the assertions of `dequeue_read`. */
  datatype ReadResult = NotFound | Found(version: nat, buf: Bytes) | Asserted

  function Max(a: nat, b: nat): nat { if a < b then b else a }

  function Min(a: nat, b: nat): nat { if a < b then a else b }

  /** The part of a read vector that a request for `[from, to)` may hold. */
  ghost predicate ReadVector(rv: seq<CopyItem>, from: nat, to: nat, fulfilled: nat) {
    from <= to && Sorted(rv) && Within(rv, from, to) && fulfilled == TotalLen(rv)
  }

  /** `fulfill_read`: fills the requested part of `[itemStart, itemEnd)` where it is still open. */
  method FulfillRead(ghost dev: Devices, rv: seq<CopyItem>, fulfilled: nat, from: nat, to: nat, itemStart: nat,
          itemEnd: nat, medium: Medium, location: int)
    returns (rv': seq<CopyItem>, fulfilled': nat)
    requires ReadVector(rv, from, to, fulfilled) && from < to
    ensures ReadVector(rv', from, to, fulfilled')
    ensures forall p :: Covered(rv', p) <==> Covered(rv, p) || (from <= p < to && itemStart <= p < itemEnd)
    ensures forall p ::
      Image(rv', dev, p) == if from <= p < to && itemStart <= p < itemEnd && Image(rv, dev, p).None?
                            then Some(dev.At(medium, location + p - itemStart)) else Image(rv, dev, p)
  {
    rv', fulfilled' := rv, fulfilled;
    if itemStart < to && itemEnd > from {
      var rdStart, rdEnd := Max(itemStart, from), Min(itemEnd, to);
      if rdStart <= rdEnd {
        var calls, filled;
        rv', calls, filled := FindHoles(rv, rdStart, rdEnd, Filler(medium, location, itemStart), 1, from, to);
        fulfilled' := fulfilled + filled;
      }
    }
  }

  /** The zero filling around a big write, skipped when nothing is left to fill. */
  method FulfillZeroes(ghost dev: Devices, rv: seq<CopyItem>, fulfilled: nat, from: nat, to: nat, itemStart: nat,
          itemEnd: nat)
    returns (rv': seq<CopyItem>, fulfilled': nat)
    requires ReadVector(rv, from, to, fulfilled) && from < to
    ensures ReadVector(rv', from, to, fulfilled')
    ensures forall p :: from <= p < to ==>
      Image(rv', dev, p) == if itemStart <= p < itemEnd && Image(rv, dev, p).None? then Some(0) else Image(rv, dev, p)
  {
    rv', fulfilled' := rv, fulfilled;
    if itemStart < itemEnd && fulfilled < to - from {
      rv', fulfilled' := FulfillRead(dev, rv, fulfilled, from, to, itemStart, itemEnd, Zero, 0);
    } else {
      TotalLenFull(rv, from, to);
    }
  }

  /** `fulfill_clean_read` for a big write that is still dirty: its range comes from its data
      block, the rest of the block reads as zeroes. */
  method FulfillBig(ghost dev: Devices, rv: seq<CopyItem>, fulfilled: nat, from: nat, to: nat, size: nat, d: Dirty)
    returns (rv': seq<CopyItem>, fulfilled': nat)
    requires ReadVector(rv, from, to, fulfilled) && from < to <= size && d.End() <= size
    ensures ReadVector(rv', from, to, fulfilled') && fulfilled' == to - from
    ensures forall p :: from <= p < to ==>
      Image(rv', dev, p) == if Image(rv, dev, p).None? then Some(BigByte(dev, d, p)) else Image(rv, dev, p)
  {
    rv', fulfilled' := FulfillRead(dev, rv, fulfilled, from, to, d.offset, d.End(), Data, d.location + d.offset);
    rv', fulfilled' := FulfillZeroes(dev, rv', fulfilled', from, to, 0, d.offset);
    rv', fulfilled' := FulfillZeroes(dev, rv', fulfilled', from, to, d.End(), size);
    forall p | from <= p < to ensures Covered(rv', p) {
      assert Image(rv', dev, p).Some?;
    }
    TotalLenFull(rv', from, to);
  }

  /** `fulfill_clean_read` for the clean copy: runs of cleared bitmap bits read as zeroes, runs
      of set bits come from the data block. */
  method FulfillClean(ghost dev: Devices, rv: seq<CopyItem>, fulfilled: nat, from: nat, to: nat, size: nat, c: Clean)
    returns (rv': seq<CopyItem>, fulfilled': nat)
    requires ReadVector(rv, from, to, fulfilled) && from < to <= size && |c.bitmap| == size
    ensures ReadVector(rv', from, to, fulfilled') && fulfilled' == to - from
    ensures forall p :: from <= p < to ==>
      Image(rv', dev, p) == if Image(rv, dev, p).None? then Some(CleanByte(dev, c, p)) else Image(rv, dev, p)
  {
    hide ReadVector, Covered, Image, CleanUpto;
    rv', fulfilled' := rv, fulfilled;
    CleanStart(dev, c, rv, from, to);
    var bmpStart, bmpEnd := 0, 0;
    while bmpStart < size
      invariant 0 <= bmpStart == bmpEnd <= size
      invariant ReadVector(rv', from, to, fulfilled') && CleanUpto(dev, c, rv, rv', from, to, bmpStart)
      decreases size - bmpStart
    {
      while bmpEnd < size && !c.bitmap[bmpEnd]
        invariant bmpStart <= bmpEnd <= size
        invariant forall p :: bmpStart <= p < bmpEnd ==> !c.Bit(p)
      {
        bmpEnd := bmpEnd + 1;
      }
      if bmpEnd > bmpStart {
        ghost var was := rv';
        rv', fulfilled' := FulfillRead(dev, rv', fulfilled', from, to, bmpStart, bmpEnd, Zero, 0);
        CleanMore(dev, c, rv, was, rv', from, to, bmpStart, bmpEnd, Zero, 0);
      }
      bmpStart := bmpEnd;
      while bmpEnd < size && c.bitmap[bmpEnd]
        invariant bmpStart <= bmpEnd <= size
        invariant forall p :: bmpStart <= p < bmpEnd ==> c.Bit(p)
      {
        bmpEnd := bmpEnd + 1;
      }
      if bmpEnd > bmpStart {
        ghost var was := rv';
        rv', fulfilled' := FulfillRead(dev, rv', fulfilled', from, to, bmpStart, bmpEnd, Data, c.location + bmpStart);
        CleanMore(dev, c, rv, was, rv', from, to, bmpStart, bmpEnd, Data, c.location + bmpStart);
        bmpStart := bmpEnd;
      }
    }
    CleanEnd(dev, c, rv, rv', from, to, size, fulfilled');
  }

  /** The vector has the clean copy up to position `upto`. */
  ghost predicate CleanUpto(dev: Devices, c: Clean, rv: seq<CopyItem>, rv': seq<CopyItem>, from: nat, to: nat,
                            upto: nat) {
    && (forall p :: from <= p < to ==>
          Image(rv', dev, p) == if p < upto && Image(rv, dev, p).None? then Some(CleanByte(dev, c, p))
              else Image(rv, dev, p))
    && (forall p :: from <= p < upto && p < to ==> Covered(rv', p))
  }

  lemma CleanStart(dev: Devices, c: Clean, rv: seq<CopyItem>, from: nat, to: nat)
    ensures CleanUpto(dev, c, rv, rv, from, to, 0)
  {
  }

  lemma CleanMore(dev: Devices, c: Clean, rv: seq<CopyItem>, was: seq<CopyItem>, rv': seq<CopyItem>, from: nat, to: nat,
          lo: nat, hi: nat, medium: Medium, location: int)
    requires CleanUpto(dev, c, rv, was, from, to, lo) && lo <= hi
    requires forall p :: lo <= p < hi ==> dev.At(medium, location + p - lo) == CleanByte(dev, c, p)
    requires forall p :: Covered(rv', p) <==> Covered(was, p) || (from <= p < to && lo <= p < hi)
    requires forall p ::
      Image(rv', dev, p) == if from <= p < to && lo <= p < hi && Image(was, dev, p).None?
                            then Some(dev.At(medium, location + p - lo)) else Image(was, dev, p)
    ensures CleanUpto(dev, c, rv, rv', from, to, hi)
  {
    hide Covered, Image;
  }

  lemma CleanEnd(dev: Devices, c: Clean, rv: seq<CopyItem>, rv': seq<CopyItem>, from: nat, to: nat, size: nat,
          fulfilled: nat)
    requires CleanUpto(dev, c, rv, rv', from, to, size) && to <= size && ReadVector(rv', from, to, fulfilled)
    ensures fulfilled == to - from && forall p :: from <= p < to ==>
      Image(rv', dev, p) == if Image(rv, dev, p).None? then Some(CleanByte(dev, c, p)) else Image(rv, dev, p)
  {
    hide Image;
    TotalLenFull(rv', from, to);
  }

  function Paste(buf: Bytes, from: nat, it: CopyItem, dev: Devices): (r: Bytes)
    ensures |r| == |buf|
    ensures forall q :: 0 <= q < |r| ==> r[q] == if it.Covers(q + from) then it.Value(dev, q + from) else buf[q]
  {
    seq(|buf|, q requires 0 <= q < |buf| => PasteAt(buf, from, it, dev, q))
  }

  function PasteAt(buf: Bytes, from: nat, it: CopyItem, dev: Devices, q: int): Granule
    requires 0 <= q < |buf|
  {
    if it.Covers(q + from) then it.Value(dev, q + from) else buf[q]
  }

  /** Carries out the copies of a complete vector. */
  method CopyOut(dev: Devices, rv: seq<CopyItem>, from: nat, to: nat, fulfilled: nat) returns (buf: Bytes)
    requires ReadVector(rv, from, to, fulfilled) && fulfilled == to - from
    ensures |buf| == to - from
    ensures forall p :: from <= p < to ==> Some(buf[p - from]) == Image(rv, dev, p)
  {
    TotalLenFull(rv, from, to);
    buf := seq(to - from, _ => 0);
    for i := 0 to |rv|
      invariant |buf| == to - from
      invariant forall k, p :: 0 <= k < i && rv[k].Covers(p) ==> buf[p - from] == rv[k].Value(dev, p)
    {
      var it := rv[i];
      buf := Paste(buf, from, it, dev);
    }
    forall p | from <= p < to ensures Some(buf[p - from]) == Image(rv, dev, p) {
      assert Covered(rv, p);
      var k :| 0 <= k < |rv| && rv[k].Covers(p);
      ImageAt(rv, dev, p, k);
    }
  }

  /** What the positions of `rv` and, below them, the versions `s` over the clean copy amount to. */
  ghost predicate Resolves(dev: Devices, size: nat, rv: seq<CopyItem>, s: seq<Dirty>, clean: Option<Clean>, from: nat,
          to: nat, whole: Option<Bytes>) {
    var rest := Replay(dev, size, s, Base(dev, size, clean));
    && whole.Some? && |whole.value| == size && from <= to <= size
    && forall p :: from <= p < to ==>
      whole.value[p] == Shown(Image(rv, dev, p), ByteOf(rest, p))
  }

  function Shown(above: Option<Granule>, below: Granule): Granule { if above.Some? then above.value else below }

  /** What position `p` shows once version `d` is put underneath. */
  function Under(dev: Devices, above: Option<Granule>, d: Dirty, p: int): Option<Granule> {
    if above.Some? then above
    else if d.kind == BigWrite then Some(BigByte(dev, d, p))
    else if d.InRange(p) then Some(SmallByte(dev, d, p))
    else None
  }

  /** Moving the newest remaining version from the stack into the vector. */
  lemma ResolvesStep(dev: Devices, size: nat, rv: seq<CopyItem>, rv': seq<CopyItem>, below: seq<Dirty>, d: Dirty,
          clean: Option<Clean>, from: nat, to: nat, whole: Option<Bytes>)
    requires d.kind != Delete
    requires Resolves(dev, size, rv, below + [d], clean, from, to, whole)
    requires forall p :: from <= p < to ==> Image(rv', dev, p) == Under(dev, Image(rv, dev, p), d, p)
    ensures Resolves(dev, size, rv', below, clean, from, to, whole)
  {
    assert (below + [d])[..|below|] == below;
  }

  /** The version a successful read reports. */
  function ReportedVersion(s: seq<Dirty>, clean: Option<Clean>): nat {
    if s != [] then s[|s| - 1].version else if clean.Some? then clean.value.version else 0
  }

  // ----- what a read rests on

  /** Under the small writes on top there is a big write or the clean copy. */
  predicate Grounded(s: seq<Dirty>, clean: bool)
    decreases |s|
  {
    if s == [] then clean
    else match Last(s).kind
      case SmallWrite => Grounded(Front(s), clean)
      case BigWrite => true
      case Delete => false
  }

  /** One of the small writes on top has the position. */
  predicate OnTop(s: seq<Dirty>, p: int)
    decreases |s|
  {
    s != [] && Last(s).kind == SmallWrite && (Last(s).InRange(p) || OnTop(Front(s), p))
  }

  /** What the assertions of `dequeue_read` come down to: small writes over a delete or over nothing
      have to hold the whole requested range themselves. */
  predicate Readable(s: seq<Dirty>, clean: bool, from: nat, to: nat) {
    !Exists(s, clean) || Grounded(s, clean) || forall p :: from <= p < to ==> OnTop(s, p)
  }

  /** While something is left to fill, the consulted versions are the small writes on top and the
      positions of `rv` are theirs. */
  ghost predicate Consulted(all: seq<Dirty>, below: seq<Dirty>, rv: seq<CopyItem>, clean: bool, from: nat, to: nat,
          fulfilled: nat) {
    if fulfilled < to - from then
      && Grounded(all, clean) == Grounded(below, clean)
      && forall p :: from <= p < to ==> (OnTop(all, p) <==> Covered(rv, p) || OnTop(below, p))
    else Readable(all, clean, from, to)
  }

  /** The state of the downward scan when the versions from index `i` on have been consulted. */
  ghost predicate Scanned(dev: Devices, size: nat, dirty: seq<Dirty>, clean: Option<Clean>, version: nat, from: nat,
          to: nat,
                          i: nat, rv: seq<CopyItem>, fulfilled: nat, resultVersion: nat)
    requires i <= |dirty|
  {
    var all, below := Visible(dirty, version), Visible(dirty[..i], version);
    var whole := Replay(dev, size, all, Base(dev, size, clean));
    && ReadVector(rv, from, to, fulfilled)
    && Consulted(all, below, rv, clean.Some?, from, to, fulfilled)
    && (resultVersion == 0 ==> rv == [] && below == all)
    && (resultVersion != 0 ==>
          && resultVersion == ReportedVersion(all, clean) && all != [] && Last(all).kind != Delete
          && Resolves(dev, size, rv, below, clean, from, to, whole))
  }

  lemma ScanStart(dev: Devices, size: nat, dirty: seq<Dirty>, clean: Option<Clean>, version: nat, from: nat, to: nat)
    requires from < to
    ensures Scanned(dev, size, dirty, clean, version, from, to, |dirty|, [], 0, 0)
  {
    assert dirty[..|dirty|] == dirty;
  }

  lemma VisibleSnoc(dirty: seq<Dirty>, version: nat, i: nat)
    requires i < |dirty|
    ensures Visible(dirty[..i + 1], version) ==
            if VisibleTo(dirty[i], version) then Visible(dirty[..i], version) + [dirty[i]]
                else Visible(dirty[..i], version)
  {
    assert dirty[..i + 1][..i] == dirty[..i];
  }

  lemma GroundedSnoc(below: seq<Dirty>, d: Dirty, clean: bool)
    ensures Grounded(below + [d], clean) == if d.kind == SmallWrite then Grounded(below, clean) else d.kind == BigWrite
    ensures forall p :: OnTop(below + [d], p) <==> d.kind == SmallWrite && (d.InRange(p) || OnTop(below, p))
  {
    assert Front(below + [d]) == below;
  }

  /** A vector that is not full leaves some position open. */
  lemma OpenPosition(all: seq<Dirty>, below: seq<Dirty>, rv: seq<CopyItem>, clean: bool, from: nat, to: nat,
          fulfilled: nat)
    requires ReadVector(rv, from, to, fulfilled) && fulfilled < to - from
    requires Consulted(all, below, rv, clean, from, to, fulfilled) && Exists(all, clean)
    requires !Grounded(below, clean) && forall p :: !OnTop(below, p)
    ensures !Readable(all, clean, from, to)
  {
    TotalLenFull(rv, from, to);
    var p :| from <= p < to && !Covered(rv, p);
    assert !OnTop(all, p);
  }

  lemma ScanDelete(dev: Devices, size: nat, dirty: seq<Dirty>, clean: Option<Clean>, version: nat, from: nat, to: nat,
                   i: nat, rv: seq<CopyItem>, fulfilled: nat, resultVersion: nat)
    requires i < |dirty| && Scanned(dev, size, dirty, clean, version, from, to, i + 1, rv, fulfilled, resultVersion)
    requires fulfilled < to - from && VisibleTo(dirty[i], version) && dirty[i].kind == Delete
    ensures var all := Visible(dirty, version);
            if resultVersion == 0 then Replay(dev, size, all, Base(dev, size, clean)).None?
            else Exists(all, clean.Some?) && !Readable(all, clean.Some?, from, to)
  {
    VisibleSnoc(dirty, version, i);
    var all, below := Visible(dirty, version), Visible(dirty[..i], version);
    GroundedSnoc(below, dirty[i], clean.Some?);
    if resultVersion != 0 { OpenPosition(all, below + [dirty[i]], rv, clean.Some?, from, to, fulfilled); }
  }

  /** A position is covered exactly when it shows something. */
  lemma ConsultMore(all: seq<Dirty>, below: seq<Dirty>, d: Dirty, rv: seq<CopyItem>, rv': seq<CopyItem>, clean: bool,
                    from: nat, to: nat, fulfilled: nat, fulfilled': nat)
    requires fulfilled < to - from && Consulted(all, below + [d], rv, clean, from, to, fulfilled) && d.kind != Delete
    requires ReadVector(rv', from, to, fulfilled')
    requires d.kind == BigWrite ==> fulfilled' == to - from
    requires d.kind == SmallWrite ==> forall p :: from <= p < to ==>
      (Covered(rv', p) <==> Covered(rv, p) || d.InRange(p))
    ensures Consulted(all, below, rv', clean, from, to, fulfilled')
  {
    GroundedSnoc(below, d, clean);
    TotalLenFull(rv', from, to);
  }

  lemma CoveredUnder(dev: Devices, rv: seq<CopyItem>, rv': seq<CopyItem>, d: Dirty, from: nat, to: nat)
    requires d.kind == SmallWrite
    requires forall p :: from <= p < to ==> Image(rv', dev, p) == Under(dev, Image(rv, dev, p), d, p)
    ensures forall p :: from <= p < to ==> (Covered(rv', p) <==> Covered(rv, p) || d.InRange(p))
  {
    forall p | from <= p < to ensures Covered(rv', p) <==> Covered(rv, p) || d.InRange(p) {
      assert Image(rv', dev, p) == Under(dev, Image(rv, dev, p), d, p);
    }
  }

  lemma ScanVersion(dev: Devices, size: nat, dirty: seq<Dirty>, clean: Option<Clean>, version: nat, from: nat, to: nat,
                    i: nat, rv: seq<CopyItem>, fulfilled: nat, resultVersion: nat, rv': seq<CopyItem>, fulfilled': nat)
    requires ValidStack(dirty, size) && from < to <= size && fulfilled < to - from
    requires i < |dirty| && Scanned(dev, size, dirty, clean, version, from, to, i + 1, rv, fulfilled, resultVersion)
    requires VisibleTo(dirty[i], version) && dirty[i].kind != Delete
    requires ReadVector(rv', from, to, fulfilled')
    requires dirty[i].kind == BigWrite ==> fulfilled' == to - from
    requires forall p :: from <= p < to ==> Image(rv', dev, p) == Under(dev, Image(rv, dev, p), dirty[i], p)
    ensures Scanned(dev, size, dirty, clean, version, from, to, i, rv', fulfilled',
                    if resultVersion == 0 then dirty[i].version else resultVersion)
  {
    hide Consulted, Readable, Grounded, OnTop;
    VisibleSnoc(dirty, version, i);
    var all, below, d := Visible(dirty, version), Visible(dirty[..i], version), dirty[i];
    var whole := Replay(dev, size, all, Base(dev, size, clean));
    assert (below + [d])[..|below|] == below;
    if resultVersion == 0 {
      ReplayExists(dev, size, all, clean);
      assert forall p :: from <= p < to ==> Image(rv, dev, p).None?;
      assert Resolves(dev, size, rv, below + [d], clean, from, to, whole);
    }
    ResolvesStep(dev, size, rv, rv', below, d, clean, from, to, whole);
    if d.kind == SmallWrite { CoveredUnder(dev, rv, rv', d, from, to); }
    ConsultMore(all, below, d, rv, rv', clean.Some?, from, to, fulfilled, fulfilled');
  }

  /** When the scan stops: the read is complete once the clean copy is added, and holds the replayed
      bytes, if and only if the stack is readable. */
  lemma ScanEnd(dev: Devices, size: nat, dirty: seq<Dirty>, clean: Option<Clean>, version: nat, from: nat, to: nat,
                i: nat, rv: seq<CopyItem>, fulfilled: nat, resultVersion: nat)
    requires from < to <= size && i <= |dirty|
    requires Scanned(dev, size, dirty, clean, version, from, to, i, rv, fulfilled, resultVersion)
    requires fulfilled < to - from ==> i == 0
    requires resultVersion == 0 ==> fulfilled < to - from
    ensures var all := Visible(dirty, version);
            && (fulfilled == to - from || clean.Some? || resultVersion == 0 <==> Readable(all, clean.Some?, from, to))
            && (clean.None? && resultVersion == 0 ==> Replay(dev, size, all, Base(dev, size, clean)).None?)
            && (resultVersion == 0 ==>
                  fulfilled == 0 && ReportedVersion(all, clean) == if clean.Some? then clean.value.version else 0)
    ensures resultVersion != 0 || clean.Some? ==>
      var whole := Replay(dev, size, Visible(dirty, version), Base(dev, size, clean));
      && whole.Some? && |whole.value| == size
      && (forall p :: from <= p < to ==> whole.value[p] == Shown(Image(rv, dev, p), ByteOf(Base(dev, size, clean), p)))
  {
    hide OnTop;
    var all := Visible(dirty, version);
    TotalLenFull(rv, from, to);
    assert dirty[..0] == [];
    ReplayExists(dev, size, all, clean);
    if fulfilled < to - from && clean.None? && resultVersion != 0 { OpenAtEnd(all, rv, from, to, fulfilled); }
  }

  lemma OpenAtEnd(all: seq<Dirty>, rv: seq<CopyItem>, from: nat, to: nat, fulfilled: nat)
    requires ReadVector(rv, from, to, fulfilled) && fulfilled < to - from
    requires Consulted(all, [], rv, false, from, to, fulfilled) && Exists(all, false)
    ensures !Readable(all, false, from, to)
  {
    OpenPosition(all, [], rv, false, from, to, fulfilled);
  }

  /** One visible version of the scan. */
  method Consult(ghost dev: Devices, rv: seq<CopyItem>, fulfilled: nat, from: nat, to: nat, size: nat, d: Dirty)
    returns (rv': seq<CopyItem>, fulfilled': nat)
    requires ReadVector(rv, from, to, fulfilled) && from < to <= size && d.End() <= size && d.kind != Delete
    ensures ReadVector(rv', from, to, fulfilled')
    ensures d.kind == BigWrite ==> fulfilled' == to - from
    ensures forall p :: from <= p < to ==> Image(rv', dev, p) == Under(dev, Image(rv, dev, p), d, p)
  {
    if d.kind == BigWrite {
      rv', fulfilled' := FulfillBig(dev, rv, fulfilled, from, to, size, d);
    } else {
      rv', fulfilled' := FulfillRead(dev, rv, fulfilled, from, to, d.offset, d.End(), Journal, d.location);
    }
  }

  /** The loop of `dequeue_read` over the dirty versions; `deleted` is its exit at a delete, which asserts
      that no version has been found above. */
  method ScanVersions(ghost dev: Devices, size: nat, dirty: seq<Dirty>, ghost clean: Option<Clean>, version: nat,
          from: nat, to: nat)
    returns (deleted: bool, ghost i: nat, rv: seq<CopyItem>, fulfilled: nat, resultVersion: nat)
    requires from < to <= size && ValidStack(dirty, size)
    ensures deleted ==>
      var all := Visible(dirty, version);
      if resultVersion == 0 then Replay(dev, size, all, Base(dev, size, clean)).None?
      else Exists(all, clean.Some?) && !Readable(all, clean.Some?, from, to)
    ensures !deleted ==>
      && i <= |dirty| && Scanned(dev, size, dirty, clean, version, from, to, i, rv, fulfilled, resultVersion)
      && (fulfilled < to - from ==> i == 0) && (resultVersion == 0 ==> fulfilled < to - from)
  {
    hide Consulted, Readable, Grounded, OnTop;
    deleted, rv, fulfilled, resultVersion := false, [], 0, 0;
    var k := |dirty|;
    ScanStart(dev, size, dirty, clean, version, from, to);
    while k > 0
      invariant 0 <= k <= |dirty|
      invariant Scanned(dev, size, dirty, clean, version, from, to, k, rv, fulfilled, resultVersion)
      invariant fulfilled < to - from
    {
      k := k - 1;
      var d := dirty[k];
      if !IsInFlight(d.state) && version >= d.version {
        if d.kind == Delete {
          ScanDelete(dev, size, dirty, clean, version, from, to, k, rv, fulfilled, resultVersion);
          deleted, i := true, k;
          return;
        }
        ghost var rv0, fulfilled0 := rv, fulfilled;
        rv, fulfilled := Consult(dev, rv, fulfilled, from, to, size, d);
        ScanVersion(dev, size, dirty, clean, version, from, to, k, rv0, fulfilled0, resultVersion, rv, fulfilled);
        if resultVersion == 0 {
          resultVersion := d.version;
        }
      } else {
        VisibleSnoc(dirty, version, k);
      }
      TotalLenFull(rv, from, to);
      if fulfilled == to - from {
        break;
      }
    }
    i := k;
  }

  /** What a read has to return: the visible versions are applied oldest-to-newest over the clean copy. */
  function Answer(dev: Devices, size: nat, dirty: seq<Dirty>, clean: Option<Clean>, version: nat, offset: nat,
          len: nat): ReadResult
    requires offset + len <= size
  {
    var all := Visible(dirty, version);
    ReplayExists(dev, size, all, clean);
    var whole := Replay(dev, size, all, Base(dev, size, clean));
    if whole.None? then NotFound
    else if !Readable(all, clean.Some?, offset, offset + len) then Asserted
    else Found(ReportedVersion(all, clean), whole.value[offset..offset + len])
  }

  /** `dequeue_read` returns what applying the visible versions oldest-to-newest over the clean copy
      gives, and meets its own assertions if and only if the visible versions are readable. */
  method DequeueRead(dev: Devices, size: nat, dirty: seq<Dirty>, clean: Option<Clean>, version: nat, offset: nat,
          len: nat)
    returns (r: ReadResult)
    requires 0 < len && offset + len <= size
    requires ValidStack(dirty, size)
    requires clean.Some? ==> clean.value.version > 0 && |clean.value.bitmap| == size
    ensures r == Answer(dev, size, dirty, clean, version, offset, len)
  {
    hide Consulted, Readable, Grounded, OnTop;
    var from, to := offset, offset + len;
    ghost var all := Visible(dirty, version);
    ghost var whole := Replay(dev, size, all, Base(dev, size, clean));
    ReplayExists(dev, size, all, clean);
    var deleted, rv, fulfilled, resultVersion;
    ghost var i;
    deleted, i, rv, fulfilled, resultVersion := ScanVersions(dev, size, dirty, clean, version, from, to);
    if deleted {
      return if resultVersion != 0 then Asserted else NotFound;
    }
    ScanEnd(dev, size, dirty, clean, version, from, to, i, rv, fulfilled, resultVersion);
    TotalLenFull(rv, from, to);
    if clean.Some? {
      if resultVersion == 0 {
        resultVersion := clean.value.version;
      }
      if fulfilled < len {
        rv, fulfilled := FulfillClean(dev, rv, fulfilled, from, to, size, clean.value);
      }
    }
    if resultVersion == 0 {
      return NotFound;
    }
    if fulfilled != len {
      return Asserted;
    }
    TotalLenFull(rv, from, to);
    var buf := CopyOut(dev, rv, from, to, fulfilled);
    r := Found(resultVersion, buf);
    forall p | from <= p < to ensures buf[p - from] == whole.value[p] {
      assert Some(buf[p - from]) == Image(rv, dev, p);
    }
    assert buf == whole.value[offset..offset + len];
  }

  // ----- stacks that every read can be served from

  lemma {:induction false} BasedGrounded(s: seq<Dirty>, clean: bool)
    requires Based(s, clean) && Exists(s, clean)
    ensures Grounded(s, clean)
    decreases |s|
  {
    if s != [] && Last(s).kind == SmallWrite { BasedGrounded(Front(s), clean); }
  }

  /** If small writes are only visible over something, every range of every version is readable. */
  lemma BasedReadable(s: seq<Dirty>, clean: bool, from: nat, to: nat)
    requires Based(s, clean)
    ensures Readable(s, clean, from, to)
  {
    if Exists(s, clean) { BasedGrounded(s, clean); }
  }
}
