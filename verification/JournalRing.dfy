/** The ring buffer of the journal: where headers and data are placed, what the space check
    reserves, and when a reservation keeps its promise.

    Positions are byte offsets; block 0 is the journal superblock, so the ring is
    `[bs, len)`. */
module JournalRing {
  import opened Alignment

  /** The geometry of the ring and the start of its live part. */
  datatype Ring = Ring(bs: nat, len: nat, start: nat)
  {
    predicate Ok() { 0 < bs <= start < len && 2 * bs < len && Aligned(bs, len) && Aligned(bs, start) }

    /** Number of bytes that the ring can hold. */
    function Capacity(): int { len - bs }
  }

  /** A writing position: `pos` is the next free offset, `lin` the distance covered since the ring
      start, `inPos` the fill of the current header sector; a `blocked` sector takes no more entries. */
  datatype Cursor = Cursor(pos: nat, lin: nat, inPos: nat, blocked: bool)

  /** The offset at distance `lin` from the ring start, after at most one turn. */
  function At(r: Ring, lin: nat): int { if r.start + lin < r.len then r.start + lin else r.start + lin - r.len + r.bs }

  /** Whether the offset is still on the first turn, i.e. not before the ring start. */
  predicate FirstTurn(r: Ring, lin: nat) { r.start + lin < r.len }

  /** One turn is complete when this distance is reached; a second wrap happens here. */
  function Limit(r: Ring): int { 2 * r.len - r.bs - r.start }

  function Wrap(bs: nat, len: nat, pos: nat): nat { if pos >= len then bs else pos }

  /** Moving to a new header sector, which is placed at `pos`. */
  function NextSector(r: Ring, c: Cursor): Cursor {
    Cursor(Wrap(r.bs, r.len, c.pos + r.bs), c.lin + r.bs, 0, false)
  }

  predicate Room(r: Ring, c: Cursor, size: nat) { !c.blocked && c.inPos + size <= r.bs }

  /** Adding one entry of `size` bytes. */
  function Put(r: Ring, c: Cursor, size: nat): Cursor {
    var c' := if Room(r, c, size) then c else NextSector(r, c);
    c'.(inPos := c'.inPos + size)
  }

  function PutMany(r: Ring, c: Cursor, n: nat, size: nat): Cursor {
    if n == 0 then c else Put(r, PutMany(r, c, n - 1, size), size)
  }

  /** Where `n` bytes of data go when the next free offset is `pos`, and the offset after them. */
  function DataAt(bs: nat, len: nat, pos: nat, n: nat): nat { if pos + n <= len then pos else bs }

  function DataEnd(bs: nat, len: nat, pos: nat, n: nat): nat { Wrap(bs, len, DataAt(bs, len, pos, n) + n) }

  /** Distance of the place where `n` bytes of data go: data is never split, so the rest of the
      ring is skipped when it is too short. */
  function DataLin(r: Ring, c: Cursor, n: nat): nat {
    if c.pos + n <= r.len || c.pos >= r.len then c.lin else c.lin + r.len - c.pos
  }

  function Data(r: Ring, c: Cursor, n: nat): Cursor {
    c.(pos := DataEnd(r.bs, r.len, c.pos, n), lin := DataLin(r, c, n) + n)
  }

  /** The inverse of `At`: the distance of an offset from the ring start. */
  function Dist(r: Ring, b: nat): int { if b >= r.start then b - r.start else b + r.len - r.bs - r.start }

  /** The bytes of `[pos, pos + n)` are inside the ring, at consecutive distances from `lo` to `hi`. */
  predicate Spans(r: Ring, lo: int, hi: int, pos: nat, n: nat) {
    n > 0 ==>
      && r.bs <= pos && pos + n <= r.len && !(pos < r.start < pos + n)
      && lo <= Dist(r, pos) && Dist(r, pos) + n <= hi
  }

  /** Stretches of the ring that are apart in distance have no byte in common. */
  lemma SpansApart(r: Ring, lo: int, mid: int, hi: int, pos: nat, n: nat, pos': nat, n': nat, b: nat)
    requires Spans(r, lo, mid, pos, n) && Spans(r, mid, hi, pos', n')
    ensures !(pos <= b < pos + n && pos' <= b < pos' + n')
  {
  }

  // ----- positions and distances

  /** The cursor is inside the ring, at its distance from the start. */
  ghost predicate Placed(r: Ring, c: Cursor) {
    && r.Ok() && Aligned(r.bs, c.pos) && r.bs <= c.pos < r.len && c.inPos <= r.bs
    && c.lin < Limit(r) && c.pos == At(r, c.lin)
  }

  /** A new header sector lies inside the ring and the distance grows by exactly one block, as long
      as the ring is not wrapped a second time. */
  lemma NextSectorPlaced(r: Ring, c: Cursor)
    requires Placed(r, c)
    ensures c.pos + r.bs <= r.len
    ensures c.lin + r.bs < Limit(r) ==> Placed(r, NextSector(r, c))
    ensures c.lin + r.bs >= Limit(r) <==> !FirstTurn(r, c.lin) && c.pos + r.bs == r.len
  {
    AlignedGap(r.bs, c.pos, r.len);
    AlignedSum(r.bs, c.pos, r.bs);
    AlignedSum(r.bs, 0, r.bs);
  }

  /** Distances below the capacity and offsets of the ring correspond one to one. */
  lemma DistIsInverse(r: Ring, lin: nat, b: nat)
    requires r.Ok()
    ensures lin < r.Capacity() ==> r.bs <= At(r, lin) < r.len && Dist(r, At(r, lin)) == lin
    ensures r.bs <= b < r.len ==> 0 <= Dist(r, b) < r.Capacity() && At(r, Dist(r, b)) == b
  {
  }

  /** The assertion that guards every move of the next free position. */
  predicate NotCrossing(r: Ring, pos: nat, pos': nat) { (pos >= r.start && pos' >= pos) || pos' < r.start }

  /** For a position that has not come round to the ring start, the assertion holds exactly when a
      move by one block does not come round either. */
  lemma StepNotCrossing(r: Ring, c: Cursor)
    requires Placed(r, c) && c.lin < r.Capacity()
    ensures NotCrossing(r, c.pos, NextSector(r, c).pos) <==> c.lin + r.bs < r.Capacity()
    ensures c.lin + r.bs < r.Capacity() ==> Placed(r, NextSector(r, c))
  {
    NextSectorPlaced(r, c);
    if c.pos < r.start { AlignedGap(r.bs, c.pos, r.start); }
  }

  // ----- adding a batch of entries

  /** Every header sector that the first `n` entries of a batch open passes its assertion. */
  ghost predicate BatchSafe(r: Ring, c: Cursor, n: nat, size: nat) {
    forall i :: 0 <= i < n ==> PutSafe(r, PutMany(r, c, i, size), size)
  }

  predicate PutSafe(r: Ring, c: Cursor, size: nat) { Room(r, c, size) || NotCrossing(r, c.pos, NextSector(r, c).pos) }

  lemma {:induction false} LinGrows(r: Ring, c: Cursor, i: nat, n: nat, size: nat)
    requires i <= n
    ensures PutMany(r, c, i, size).lin <= PutMany(r, c, n, size).lin
    ensures c.lin <= PutMany(r, c, n, size).lin
  {
    if i < n { LinGrows(r, c, i, n - 1, size); } else if n > 0 { LinGrows(r, c, n - 1, n - 1, size); }
  }

  lemma {:induction false} BatchPlaced(r: Ring, c: Cursor, n: nat, size: nat)
    requires Placed(r, c) && 0 < size <= r.bs
    requires PutMany(r, c, n, size).lin < Limit(r)
    ensures Placed(r, PutMany(r, c, n, size))
  {
    if n > 0 {
      var d := PutMany(r, c, n - 1, size);
      BatchPlaced(r, c, n - 1, size);
      NextSectorPlaced(r, d);
    }
  }

  lemma BatchSafeSnoc(r: Ring, c: Cursor, n: nat, size: nat)
    requires n > 0
    ensures BatchSafe(r, c, n, size) <==> BatchSafe(r, c, n - 1, size) && PutSafe(r, PutMany(r, c, n - 1, size), size)
  {
  }

  /** The headers of a batch are safe exactly when the distance after the batch stays below the capacity. */
  lemma {:induction false} BatchSafeIff(r: Ring, c: Cursor, n: nat, size: nat)
    requires Placed(r, c) && c.lin < r.Capacity() && 0 < size <= r.bs
    ensures BatchSafe(r, c, n, size) <==> PutMany(r, c, n, size).lin < r.Capacity()
  {
    if n > 0 {
      var d := PutMany(r, c, n - 1, size);
      BatchSafeIff(r, c, n - 1, size);
      BatchSafeSnoc(r, c, n, size);
      if d.lin < r.Capacity() {
        BatchPlaced(r, c, n - 1, size);
        StepNotCrossing(r, d);
      }
    }
  }

  // ----- the space check

  /** Whether the check finds enough space when it has come to `c` and `data` bytes follow. */
  predicate Accepted(r: Ring, c: Cursor, data: nat) {
    if FirstTurn(r, c.lin) then
      (data > 0 && c.pos + data >= r.len) ==> r.bs + data < r.start - r.bs
    else
      c.pos + data < r.start - r.bs
  }

  /** How far from the start the data ends when the last header is at `c`. What is left of the ring is skipped if the
      data does not end before the end of the ring. */
  function Reach(r: Ring, c: Cursor, data: nat): int {
    c.lin + data + if data > 0 && r.start + c.lin < r.len && c.pos + data >= r.len then r.len - c.pos else 0
  }

  /** Space is refused exactly if the data would end behind the end of the ring and leave less than a block and a byte
      before the start. */
  lemma AcceptedIff(r: Ring, c: Cursor, data: nat)
    requires Placed(r, c)
    ensures Accepted(r, c, data) <==> r.start + Reach(r, c, data) < r.len || Reach(r, c, data) + r.bs < r.Capacity()
  {
  }

  /** A reservation that the check accepts is kept by the headers that follow if and only if the
      batch does not take the check past the end of the ring a second time. The condition depends
      only on the position and the size of the batch. */
  lemma ReservationSoundIff(r: Ring, c: Cursor, n: nat, size: nat, data: nat)
    requires Placed(r, c) && c.lin < r.Capacity() && 0 < size <= r.bs
    requires Accepted(r, PutMany(r, c, n, size), data)
    ensures BatchSafe(r, c, n, size) <==> PutMany(r, c, n, size).lin < Limit(r)
  {
    BatchSafeIff(r, c, n, size);
    if PutMany(r, c, n, size).lin < Limit(r) { BatchPlaced(r, c, n, size); }
  }

  // ----- data placement

  /** An accepted reservation leaves room for at most as much data from at most as far. */
  lemma DataFits(r: Ring, cr: Cursor, reserved: nat, c: Cursor, n: nat)
    requires Placed(r, cr) && Placed(r, c) && c.lin <= cr.lin && n <= reserved
    requires Accepted(r, cr, reserved)
    ensures Data(r, c, n).lin < r.Capacity()
  {
  }

  lemma DataAligned(bs: nat, len: nat, pos: nat, n: nat)
    requires Aligned(bs, len) && Aligned(bs, pos) && Aligned(bs, n)
    ensures Aligned(bs, DataEnd(bs, len, pos, n))
  {
    AlignedSum(bs, pos, n);
    AlignedSum(bs, 0, bs);
    AlignedSum(bs, bs, n);
  }

  lemma DataPlaced(r: Ring, c: Cursor, n: nat)
    requires Placed(r, c) && Aligned(r.bs, n) && Data(r, c, n).lin < r.Capacity()
    ensures Placed(r, Data(r, c, n)) && c.lin <= Data(r, c, n).lin
  {
    DataAligned(r.bs, r.len, c.pos, n);
    DataWithin(r, c, n);
  }

  lemma DataWithin(r: Ring, c: Cursor, n: nat)
    requires Placed(r, c) && Data(r, c, n).lin < r.Capacity()
    ensures var d := Data(r, c, n); r.bs <= d.pos < r.len && c.lin <= d.lin && d.pos == At(r, d.lin)
  {
  }

  lemma DataSpans(r: Ring, c: Cursor, n: nat)
    requires Placed(r, c) && Data(r, c, n).lin < r.Capacity()
    ensures Spans(r, c.lin, Data(r, c, n).lin, DataAt(r.bs, r.len, c.pos, n), n)
  {
  }

  lemma DataNotCrossing(r: Ring, c: Cursor, n: nat)
    requires Placed(r, c) && Data(r, c, n).lin < r.Capacity()
    ensures NotCrossing(r, c.pos, DataAt(r.bs, r.len, c.pos, n))
    ensures NotCrossing(r, DataAt(r.bs, r.len, c.pos, n), Data(r, c, n).pos)
  {
  }

  /** Placing data inside an accepted reservation. `cr` is where the check ended before counting
      `reserved` bytes; the writer is at `c`, which is not further, and writes `n` bytes. Both
      assertions of the writer hold, the data lies between the old and the new next free position,
      and the position stays short of the ring start. */
  lemma DataSafe(r: Ring, cr: Cursor, reserved: nat, c: Cursor, n: nat)
    requires Placed(r, cr) && Placed(r, c) && c.lin <= cr.lin && n <= reserved
    requires Accepted(r, cr, reserved)
    requires Aligned(r.bs, n)
    ensures var at := DataAt(r.bs, r.len, c.pos, n);
            && NotCrossing(r, c.pos, at) && NotCrossing(r, at, Data(r, c, n).pos)
            && Spans(r, c.lin, Data(r, c, n).lin, at, n)
    ensures Placed(r, Data(r, c, n)) && c.lin <= Data(r, c, n).lin < r.Capacity()
  {
    DataFits(r, cr, reserved, c, n);
    DataPlaced(r, c, n);
    DataSpans(r, c, n);
    DataNotCrossing(r, c, n);
  }

  /** A small write: the check counts `big` entries of `bigSize` bytes that later syncs may need,
      then the entry of the write itself and its data with some spare space. The writer adds only
      the entry and the data, and that is always covered. */
  lemma SmallWriteSafe(r: Ring, c: Cursor, big: nat, bigSize: nat, size: nat, reserved: nat, n: nat)
    requires Placed(r, c) && c.lin < r.Capacity() && 0 < size <= r.bs && 0 < bigSize <= r.bs
    requires var cr := Put(r, PutMany(r, c, big, bigSize), size); cr.lin < Limit(r) && Accepted(r, cr, reserved)
    requires Aligned(r.bs, n) && n <= reserved
    ensures PutSafe(r, c, size) && Placed(r, Put(r, c, size))
    ensures var c1 := Put(r, c, size);
            var at := DataAt(r.bs, r.len, c1.pos, n);
            && NotCrossing(r, c1.pos, at) && NotCrossing(r, at, Data(r, c1, n).pos)
            && Spans(r, c1.lin, Data(r, c1, n).lin, at, n)
            && Placed(r, Data(r, c1, n)) && Data(r, c1, n).lin < r.Capacity()
  {
    hide PutMany, Spans, NotCrossing, Data, DataAt, Accepted;
    var cb := PutMany(r, c, big, bigSize);
    var cr, c1 := Put(r, cb, size), Put(r, c, size);
    BatchPlaced(r, c, big, bigSize);
    NextSectorPlaced(r, cb);
    EntryNotFurther(r, c, big, bigSize, size);
    NextSectorPlaced(r, c);
    DataFits(r, cr, reserved, c1, 0);
    StepNotCrossing(r, c);
    DataSafe(r, cr, reserved, c1, n);
  }

  /** One entry alone does not open more sectors than it does after other entries. */
  lemma {:induction false} EntryNotFurther(r: Ring, c: Cursor, n: nat, bigSize: nat, size: nat)
    ensures var cb := PutMany(r, c, n, bigSize);
            && Put(r, c, size).lin <= Put(r, cb, size).lin
            && ((cb.lin == c.lin && cb.blocked == c.blocked && cb.inPos >= c.inPos) || cb.lin >= c.lin + r.bs)
  {
    if n > 0 { EntryNotFurther(r, c, n - 1, bigSize, size); }
  }

  // ----- data lengths that are not a multiple of the journal block size

  /** The next free position stays aligned to blocks exactly when the data length is. */
  lemma DataKeepsAlignmentIff(bs: nat, len: nat, pos: nat, n: nat)
    requires Aligned(bs, len) && Aligned(bs, pos) && pos < len && bs + n <= len
    ensures Aligned(bs, DataEnd(bs, len, pos, n)) <==> Aligned(bs, n)
  {
    AlignedSum(bs, 0, bs);
    AlignedSum(bs, DataAt(bs, len, pos, n), n);
  }

  /** All data lengths, multiples of the granularity `g`, keep the next free position aligned exactly when
      the granularity is a multiple of the journal block size. */
  lemma SettingsKeepAlignmentIff(bs: nat, len: nat, g: nat)
    requires 0 < bs < len && Aligned(bs, len) && 0 < g && bs + g <= len
    ensures (forall pos: nat, n: nat :: Aligned(bs, pos) && pos < len && Aligned(g, n) && bs + n <= len ==>
               Aligned(bs, DataEnd(bs, len, pos, n))) <==> Aligned(bs, g)
  {
    if Aligned(bs, g) {
      forall pos: nat, n: nat | Aligned(bs, pos) && pos < len && Aligned(g, n) && bs + n <= len
        ensures Aligned(bs, DataEnd(bs, len, pos, n))
      {
        AlignedTrans(bs, g, n);
        DataKeepsAlignmentIff(bs, len, pos, n);
      }
    } else {
      AlignedSum(g, 0, g);
      assert Aligned(g, g) && Aligned(bs, 0);
      DataKeepsAlignmentIff(bs, len, 0, g);
    }
  }

  /** Journal blocks of 8 KiB, a granularity of 4 KiB and an empty journal of 4 MiB at offset 4177920.
      One small write of 4 KiB moves the next free position to 4 KiB before the end. The space check
      accepts another one, no assertion stops it, and its header is written across the end. */
  lemma HeaderLeavesRing(size: nat)
    requires 0 < size <= 8192
    ensures var r := Ring(8192, 4194304, 4177920);
            var c1 := Put(r, Cursor(4177920, 0, 8192, false), size);
            var c2 := Data(r, c1, 4096);
            var full := c2.(inPos := 8192);
            && Accepted(r, c1, 4096) && NotCrossing(r, c1.pos, DataAt(r.bs, r.len, c1.pos, 4096))
            && c2.pos == r.len - 4096
            && Accepted(r, Put(r, full, size), 4096) && PutSafe(r, full, size)
            && full.pos + r.bs > r.len
  {
  }
}
