/** Vectors of copy items and the hole search that builds them.

    Offsets and lengths count granules (units of `bitmap_granularity`), so bit `p` of a
    block bitmap describes position `p`. A vector is a sorted list of disjoint items; each
    item says where the granules of its range are to be taken from. */
module Overlay {
  import opened Basics

  /** Contents of one granule; 0 is a granule of zeroes. */
  type Granule = nat

  datatype Medium = Journal | Data | Zero

  /** The journal device and the data device. */
  datatype Devices = Devices(journal: seq<Granule>, data: seq<Granule>)
  {
    function At(m: Medium, pos: int): Granule {
      match m
      case Zero => 0
      case Journal => if 0 <= pos < |journal| then journal[pos] else 0
      case Data => if 0 <= pos < |data| then data[pos] else 0
    }
  }

  datatype CopyItem = CopyItem(offset: nat, len: nat, medium: Medium, diskOffset: int)
  {
    function End(): nat { offset + len }

    predicate Covers(p: int) { offset <= p < End() }

    function Value(dev: Devices, p: int): Granule { dev.At(medium, diskOffset + p - offset) }
  }

  /** What a callback puts into every hole: granule `p` is read from `location + p - start`. */
  datatype Filler = Filler(medium: Medium, location: int, start: int)
  {
    function Item(from: nat, to: nat): CopyItem
      requires from <= to
    {
      CopyItem(from, to - from, medium, location + from - start)
    }

    function Value(dev: Devices, p: int): Granule { dev.At(medium, location + p - start) }
  }

  /** One invocation of the callback. */
  datatype Call = Call(alloc: bool, from: nat, to: nat)

  ghost predicate Sorted(v: seq<CopyItem>) {
    && (forall i :: 0 <= i < |v| ==> v[i].len > 0)
    && (forall i, j :: 0 <= i < j < |v| ==> v[i].End() <= v[j].offset)
  }

  ghost predicate Within(v: seq<CopyItem>, from: nat, to: nat) {
    forall i :: 0 <= i < |v| ==> from <= v[i].offset && v[i].End() <= to
  }

  ghost predicate Covered(v: seq<CopyItem>, p: int) {
    exists i :: 0 <= i < |v| && v[i].Covers(p)
  }

  /** The granule that vector `v` supplies for position `p`, if any. */
  ghost function Image(v: seq<CopyItem>, dev: Devices, p: int): (g: Option<Granule>)
    ensures g.Some? <==> Covered(v, p)
  {
    if i :| 0 <= i < |v| && v[i].Covers(p) then Some(v[i].Value(dev, p)) else None
  }

  function TotalLen(v: seq<CopyItem>): nat {
    if v == [] then 0 else v[0].len + TotalLen(v[1..])
  }

  lemma ImageAt(v: seq<CopyItem>, dev: Devices, p: int, i: nat)
    requires Sorted(v) && i < |v| && v[i].Covers(p)
    ensures Image(v, dev, p) == Some(v[i].Value(dev, p))
  {
    assert forall j :: 0 <= j < |v| && v[j].Covers(p) ==> j == i;
  }

  /** Inserting an item over an uncovered stretch defines exactly that stretch. */
  lemma ImageInsert(v: seq<CopyItem>, i: nat, x: CopyItem, dev: Devices, p: int)
    requires i <= |v|
    requires Sorted(v) && Sorted(v[..i] + [x] + v[i..])
    ensures Image(v[..i] + [x] + v[i..], dev, p) ==
            if x.Covers(p) then Some(x.Value(dev, p)) else Image(v, dev, p)
  {
    var w := v[..i] + [x] + v[i..];
    if x.Covers(p) {
      ImageAt(w, dev, p, i);
    } else if k :| 0 <= k < |v| && v[k].Covers(p) {
      ImageAt(v, dev, p, k);
      var k' := if k < i then k else k + 1;
      assert w[k'] == v[k];
      ImageAt(w, dev, p, k');
    } else {
      forall k | 0 <= k < |w| ensures !w[k].Covers(p) {
        if k < i { assert w[k] == v[k]; } else if k > i { assert w[k] == v[k - 1]; }
      }
    }
  }

  lemma {:induction false} TotalLenInsert(v: seq<CopyItem>, i: nat, x: CopyItem)
    requires i <= |v|
    ensures TotalLen(v[..i] + [x] + v[i..]) == TotalLen(v) + x.len
  {
    var w := v[..i] + [x] + v[i..];
    if i == 0 {
      assert w[1..] == v;
    } else {
      TotalLenInsert(v[1..], i - 1, x);
      assert w[1..] == v[1..][..i - 1] + [x] + v[1..][i - 1..];
    }
  }

  /** The lengths of a vector confined to a range add up to the range exactly when nothing
      is left uncovered: this is why comparing a running total with the request length is
      a correct completeness test. */
  lemma {:induction false} TotalLenFull(v: seq<CopyItem>, from: nat, to: nat)
    requires from <= to && Sorted(v) && Within(v, from, to)
    ensures TotalLen(v) <= to - from
    ensures TotalLen(v) == to - from <==> forall p :: from <= p < to ==> Covered(v, p)
  {
    if v == [] {
      if from < to { assert !Covered(v, from); }
    } else {
      var x, rest := v[0], v[1..];
      TotalLenFull(rest, x.End(), to);
      forall p ensures Covered(v, p) <==> x.Covers(p) || Covered(rest, p) {
        CoveredHead(v, p);
      }
      if from < x.offset { assert !Covered(v, from); }
    }
  }

  lemma CoveredHead(v: seq<CopyItem>, p: int)
    requires v != []
    ensures Covered(v, p) <==> v[0].Covers(p) || Covered(v[1..], p)
  {
    assert v == [v[0]] + v[1..];
    if k :| 0 <= k < |v[1..]| && v[1..][k].Covers(p) {
      assert v[k + 1].Covers(p);
    }
  }

  /** `calls` cut `[from, to)` into consecutive non-empty pieces, each flagged as allocated
      exactly when the vector `v` covers it. */
  ghost predicate Tiles(calls: seq<Call>, v: seq<CopyItem>, from: nat, to: nat)
  {
    && (calls == [] ==> from == to)
    && (calls != [] ==> calls[0].from == from && calls[|calls| - 1].to == to)
    && (forall k :: 0 <= k < |calls| ==> calls[k].from < calls[k].to)
    && (forall k :: 0 < k < |calls| ==> calls[k].from == calls[k - 1].to)
    && (forall k, p :: 0 <= k < |calls| && calls[k].from <= p < calls[k].to ==> (Covered(v, p) <==> calls[k].alloc))
  }

  lemma TilesSnoc(calls: seq<Call>, v: seq<CopyItem>, from: nat, mid: nat, c: Call)
    requires Tiles(calls, v, from, mid) && c.from == mid < c.to
    requires forall p :: c.from <= p < c.to ==> (Covered(v, p) <==> c.alloc)
    ensures Tiles(calls + [c], v, from, c.to)
  {
  }

  /** The vector after every hole of `[from, to)` in `v` has been filled. */
  ghost predicate Fills(w: seq<CopyItem>, v: seq<CopyItem>, from: nat, to: nat, fill: Filler) {
    && Sorted(w)
    && (forall p :: Covered(w, p) <==> Covered(v, p) || from <= p < to)
    && (forall dev: Devices, p {:trigger Image(w, dev, p)} ::
          Image(w, dev, p) == if from <= p < to && Image(v, dev, p).None? then Some(fill.Value(dev, p))
              else Image(v, dev, p))
  }

  lemma Uncovered(w: seq<CopyItem>, i: nat, mid: nat, to: nat, p: int)
    requires i <= |w| && Sorted(w) && mid <= p < to
    requires forall k :: 0 <= k < i ==> w[k].End() <= mid
    requires i < |w| ==> to <= w[i].offset
    ensures !Covered(w, p)
  {
    forall k | i <= k < |w| ensures to <= w[k].offset {
      assert k == i || w[i].End() <= w[k].offset;
    }
  }

  lemma InsertSorted(w: seq<CopyItem>, i: nat, x: CopyItem)
    requires i <= |w| && Sorted(w) && x.len > 0
    requires forall k :: 0 <= k < i ==> w[k].End() <= x.offset
    requires i < |w| ==> x.End() <= w[i].offset
    ensures Sorted(w[..i] + [x] + w[i..])
  {
    var w' := w[..i] + [x] + w[i..];
    forall a, b | 0 <= a < b < |w'| ensures w'[a].End() <= w'[b].offset {
      if b > i > a {
        assert w'[a] == w[a] && w'[b] == w[b - 1];
      } else if b > i == a {
        assert w'[b] == w[b - 1] && (b - 1 == i || w[i].End() <= w[b - 1].offset);
      }
    }
  }

  lemma InsertCovered(w: seq<CopyItem>, i: nat, x: CopyItem, p: int)
    requires i <= |w|
    ensures Covered(w[..i] + [x] + w[i..], p) <==> Covered(w, p) || x.Covers(p)
  {
    var w' := w[..i] + [x] + w[i..];
    assert w'[i] == x;
    if k :| 0 <= k < |w| && w[k].Covers(p) {
      assert w'[if k < i then k else k + 1] == w[k];
    }
    if k :| 0 <= k < |w'| && w'[k].Covers(p) {
      assert k == i || w'[k] == w[if k < i then k else k - 1];
    }
  }

  lemma FillsStep(w: seq<CopyItem>, v: seq<CopyItem>, from: nat, mid: nat, to: nat, fill: Filler, i: nat)
    requires from <= mid < to && i <= |w|
    requires Fills(w, v, from, mid, fill)
    requires forall k :: 0 <= k < i ==> w[k].End() <= mid
    requires i < |w| ==> to <= w[i].offset
    ensures Fills(w[..i] + [fill.Item(mid, to)] + w[i..], v, from, to, fill)
  {
    var x := fill.Item(mid, to);
    var w' := w[..i] + [x] + w[i..];
    InsertSorted(w, i, x);
    forall p ensures Covered(w', p) <==> Covered(v, p) || from <= p < to {
      InsertCovered(w, i, x, p);
    }
    forall dev: Devices, p
      ensures Image(w', dev, p) == if from <= p < to && Image(v, dev, p).None? then Some(fill.Value(dev, p))
          else Image(v, dev, p)
    {
      ImageInsert(w, i, x, dev, p);
      if mid <= p < to {
        Uncovered(w, i, mid, to, p);
        assert !Covered(v, p);
      }
    }
  }

  /** What the search has established once it has reached `cur`. */
  ghost predicate Searched(w: seq<CopyItem>, calls: seq<Call>, filled: nat, v: seq<CopyItem>, from: nat, cur: nat,
          fill: Filler, lo: nat, hi: nat) {
    && Fills(w, v, from, cur, fill)
    && Tiles(calls, v, from, cur)
    && TotalLen(w) == TotalLen(v) + filled
    && Within(w, lo, hi)
    && (forall x :: x in w ==> x in v || x.medium == fill.medium)
  }

  lemma SearchHole(w: seq<CopyItem>, calls: seq<Call>, filled: nat, v: seq<CopyItem>, from: nat, cur: nat, to: nat,
          fill: Filler, lo: nat, hi: nat, i: nat)
    requires Searched(w, calls, filled, v, from, cur, fill, lo, hi) && lo <= from <= cur < to <= hi
    requires Passed(w, i, cur) && (i < |w| ==> to <= w[i].offset)
    ensures var w' := w[..i] + [fill.Item(cur, to)] + w[i..];
            Searched(w', calls + [Call(false, cur, to)], filled + to - cur, v, from, to, fill, lo, hi)
  {
    TilesHole(w, v, calls, from, cur, to, fill, i);
    FillsStep(w, v, from, cur, to, fill, i);
    TotalLenInsert(w, i, fill.Item(cur, to));
  }

  lemma FillsAlloc(w: seq<CopyItem>, v: seq<CopyItem>, from: nat, mid: nat, to: nat, fill: Filler, i: nat)
    requires from <= mid < to && i < |w| && Fills(w, v, from, mid, fill)
    requires w[i].offset <= mid && to <= w[i].End()
    ensures Fills(w, v, from, to, fill)
    ensures forall p :: mid <= p < to ==> Covered(v, p)
  {
    forall p | mid <= p < to ensures Covered(v, p) {
      assert w[i].Covers(p);
    }
  }

  lemma SearchAlloc(w: seq<CopyItem>, calls: seq<Call>, filled: nat, v: seq<CopyItem>, from: nat, cur: nat, to: nat,
          fill: Filler, lo: nat, hi: nat, i: nat)
    requires Searched(w, calls, filled, v, from, cur, fill, lo, hi) && from <= cur < to && i < |w|
    requires w[i].offset <= cur && to <= w[i].End()
    ensures Searched(w, calls + [Call(true, cur, to)], filled, v, from, to, fill, lo, hi)
  {
    FillsAlloc(w, v, from, cur, to, fill, i);
    TilesSnoc(calls, v, from, cur, Call(true, cur, to));
  }

  /** The items before index `i` end at or before `cur`. */
  ghost predicate Passed(w: seq<CopyItem>, i: nat, cur: nat) {
    i <= |w| && forall k :: 0 <= k < i ==> w[k].End() <= cur
  }

  lemma PassedInsert(w: seq<CopyItem>, i: nat, x: CopyItem, cur: nat, step: nat)
    requires Passed(w, i, cur) && cur <= x.End() && step <= 1
    ensures Passed(w[..i] + [x] + w[i..], i + step, x.End())
  {
  }

  lemma PassedNext(w: seq<CopyItem>, i: nat, cur: nat, cur': nat)
    requires Passed(w, i, cur) && i < |w| && cur <= cur' && w[i].End() <= cur'
    ensures Passed(w, i + 1, cur')
  {
  }

  /** `find_holes`, with the callbacks of the reader and of the flusher: on a hole they insert
      one item and answer `step` (1 in the reader, 0 in the flusher, which then meets its own
      item again); on an allocated piece they answer 0. Both kinds fill the same holes, and
      the loop ends although the vector grows under it. */
  method FindHoles(v: seq<CopyItem>, itemStart: nat, itemEnd: nat, fill: Filler, step: nat, ghost lo: nat,
          ghost hi: nat)
    returns (w: seq<CopyItem>, calls: seq<Call>, filled: nat)
    requires Sorted(v) && itemStart <= itemEnd && step <= 1
    requires Within(v, lo, hi) && lo <= itemStart && itemEnd <= hi
    ensures Searched(w, calls, filled, v, itemStart, itemEnd, fill, lo, hi)
  {
    hide Searched, Passed;
    w, calls, filled := v, [], 0;
    var curStart, i := itemStart, 0;
    SearchStarts(v, itemStart, fill, lo, hi);
    while curStart < itemEnd
      invariant itemStart <= curStart <= itemEnd && 0 <= i <= |w|
      invariant Searched(w, calls, filled, v, itemStart, curStart, fill, lo, hi)
      invariant curStart < itemEnd ==> Passed(w, i, curStart)
      decreases itemEnd - curStart, |w| - i
    {
      if i >= |w| || w[i].offset >= itemEnd {
        SearchHole(w, calls, filled, v, itemStart, curStart, itemEnd, fill, lo, hi, i);
        calls, filled := calls + [Call(false, curStart, itemEnd)], filled + itemEnd - curStart;
        w := w[..i] + [fill.Item(curStart, itemEnd)] + w[i..];
        i := i + step;
        curStart := itemEnd;
        break;
      } else if w[i].offset > curStart {
        var curEnd := if w[i].offset > itemEnd then itemEnd else w[i].offset;
        SearchHole(w, calls, filled, v, itemStart, curStart, curEnd, fill, lo, hi, i);
        PassedInsert(w, i, fill.Item(curStart, curEnd), curStart, step);
        calls, filled := calls + [Call(false, curStart, curEnd)], filled + curEnd - curStart;
        w := w[..i] + [fill.Item(curStart, curEnd)] + w[i..];
        i := i + step;
        curStart := curEnd;
      } else if w[i].End() > curStart {
        var curEnd := if w[i].End() > itemEnd then itemEnd else w[i].End();
        SearchAlloc(w, calls, filled, v, itemStart, curStart, curEnd, fill, lo, hi, i);
        if curEnd < itemEnd { PassedNext(w, i, curStart, curEnd); }
        calls := calls + [Call(true, curStart, curEnd)];
        curStart := curEnd;
        i := i + 1;
      } else {
        PassedNext(w, i, curStart, curStart);
        i := i + 1;
      }
    }
  }

  lemma SearchStarts(v: seq<CopyItem>, from: nat, fill: Filler, lo: nat, hi: nat)
    requires Sorted(v) && Within(v, lo, hi)
    ensures Searched(v, [], 0, v, from, from, fill, lo, hi) && Passed(v, 0, from)
  {
  }

  lemma TilesHole(w: seq<CopyItem>, v: seq<CopyItem>, calls: seq<Call>, from: nat, mid: nat, to: nat, fill: Filler,
          i: nat)
    requires from <= mid < to && i <= |w| && Fills(w, v, from, mid, fill) && Tiles(calls, v, from, mid)
    requires forall k :: 0 <= k < i ==> w[k].End() <= mid
    requires i < |w| ==> to <= w[i].offset
    ensures Tiles(calls + [Call(false, mid, to)], v, from, to)
  {
    forall p | mid <= p < to ensures !Covered(v, p) {
      Uncovered(w, i, mid, to, p);
    }
    TilesSnoc(calls, v, from, mid, Call(false, mid, to));
  }
}
