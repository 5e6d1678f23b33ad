/** The journal space check as the object that walks over the ring and the sector buffers, and what
    its verdict is worth to the writer. */
module JournalCheck {
  import opened Alignment
  import opened Basics
  import opened JournalRing

  /** An in-memory buffer of a journal sector. */
  datatype Buffer = Buffer(dirty: bool, written: bool, flushCount: nat)
  {
    predicate Busy() { flushCount > 0 || dirty }
  }

  /** What the check reads of the journal. */
  datatype View = View(ring: Ring, nextFree: nat, curSector: nat, inPos: nat, noOverwrite: bool, sectors: seq<Buffer>)
  {
    /** `lin` is the distance of the next free position from the start of the live part. */
    ghost predicate Ok(lin: nat) {
      && curSector < |sectors|
      && lin < ring.Capacity()
      && Placed(ring, Cursor(nextFree, lin, inPos, false))
    }
  }

  datatype Verdict = Available | WaitSpace | WaitBuffer | BatchTooBig

  /** Number of sectors opened by a batch. */
  function Opened(r: Ring, c: Cursor, n: nat, size: nat): nat {
    if n == 0 then 0 else Opened(r, c, n - 1, size) + if Room(r, PutMany(r, c, n - 1, size), size) then 0 else 1
  }

  /** The check has walked less than a whole turn and has not passed the end of the ring twice. */
  predicate InTurn(r: Ring, lin0: nat, lin: nat) { lin < lin0 + r.Capacity() && lin < Limit(r) }

  /** Between two entries the walk stands where the entries so far end, or one sector further when
      the next entry needs a new one. */
  predicate AtHead(r: Ring, cur: Cursor, moves: nat, c: Cursor, k: nat, size: nat) {
    var p := PutMany(r, c, k, size);
    || (cur == p && moves == Opened(r, c, k, size))
    || (cur == NextSector(r, p) && !Room(r, p, size) && moves == Opened(r, c, k, size) + 1)
  }

  /** `n * size`, and how many times `size` goes into `room`. */
  function Bytes(n: nat, size: nat): nat { if n == 0 then 0 else Bytes(n - 1, size) + size }

  function FitCount(room: nat, size: nat): nat
    requires size > 0
  {
    if room < size then 0 else 1 + FitCount(room - size, size)
  }

  lemma NotAgain(r: Ring, lin0: nat, lin: nat)
    requires r.Ok() && lin0 < lin && lin0 < r.Capacity() && InTurn(r, lin0, lin)
    ensures At(r, lin0) != At(r, lin)
  {
  }

  lemma {:induction false} PutManySplit(r: Ring, c: Cursor, k: nat, f: nat, size: nat)
    ensures PutMany(r, c, k + f, size) == PutMany(r, PutMany(r, c, k, size), f, size)
    ensures Opened(r, c, k + f, size) == Opened(r, c, k, size) + Opened(r, PutMany(r, c, k, size), f, size)
  {
    if f > 0 {
      PutManySplit(r, c, k, f - 1, size);
      assert k + f - 1 == k + (f - 1);
    }
  }

  /** Entries that fit into the current sector leave everything but its fill alone. */
  lemma {:induction false} PutFits(r: Ring, c: Cursor, f: nat, size: nat)
    requires !c.blocked && c.inPos + Bytes(f, size) <= r.bs
    ensures PutMany(r, c, f, size) == c.(inPos := c.inPos + Bytes(f, size))
    ensures Opened(r, c, f, size) == 0
  {
    if f > 0 {
      PutFits(r, c, f - 1, size);
    }
  }

  lemma {:induction false} FitsBound(room: nat, size: nat, required: nat)
    requires size > 0
    ensures var f := FitCount(room, size);
            (f > 0 <==> room >= size) && Bytes(f, size) <= room < Bytes(f, size) + size
    ensures required <= FitCount(room, size) ==> Bytes(required, size) <= room
  {
    if room >= size { FitsBound(room - size, size, if required > 0 then required - 1 else 0); }
  }

  /** One move of the walk: the flag tells the turn, and no position repeats within a turn. */
  lemma MoveFacts(r: Ring, lin0: nat, pos: nat, lin: nat)
    requires r.Ok() && lin0 < r.Capacity() && lin0 <= lin
    requires r.bs <= pos < r.len && Aligned(r.bs, pos) && (lin < Limit(r) ==> pos == At(r, lin))
    ensures var pos' := Wrap(r.bs, r.len, pos + r.bs);
            && r.bs <= pos' < r.len && Aligned(r.bs, pos') && pos' != pos
            && (FirstTurn(r, lin + r.bs) <==> FirstTurn(r, lin) && pos + r.bs < r.len)
            && (lin + r.bs < Limit(r) ==> pos' == At(r, lin + r.bs))
            && (InTurn(r, lin0, lin + r.bs) ==> pos' != At(r, lin0))
  {
    AlignedGap(r.bs, pos, r.len);
    AlignedSum(r.bs, pos, r.bs);
    AlignedSum(r.bs, 0, r.bs);
    if lin < Limit(r) { NextSectorPlaced(r, Cursor(pos, lin, 0, false)); }
    if InTurn(r, lin0, lin + r.bs) { NotAgain(r, lin0, lin + r.bs); }
  }

  lemma FilledFrom(r: Ring, c: Cursor, k: nat, f: nat, size: nat)
    requires var p := PutMany(r, c, k, size); !p.blocked && p.inPos + Bytes(f, size) <= r.bs
    ensures var p := PutMany(r, c, k, size); PutMany(r, c, k + f, size) == p.(inPos := p.inPos + Bytes(f, size))
    ensures Opened(r, c, k + f, size) == Opened(r, c, k, size)
  {
    PutManySplit(r, c, k, f, size);
    PutFits(r, PutMany(r, c, k, size), f, size);
  }

  lemma Filled(r: Ring, cur: Cursor, moves: nat, c: Cursor, k: nat, f: nat, size: nat)
    requires AtHead(r, cur, moves, c, k, size) && f > 0
    requires !cur.blocked && cur.inPos + Bytes(f, size) <= r.bs
    ensures PutMany(r, c, k + f, size) == cur.(inPos := cur.inPos + Bytes(f, size))
    ensures Opened(r, c, k + f, size) == moves
  {
    if cur == PutMany(r, c, k, size) && moves == Opened(r, c, k, size) {
      FilledFrom(r, c, k, f, size);
    } else {
      assert PutMany(r, c, k + 1, size) == cur.(inPos := cur.inPos + size) && Opened(r, c, k + 1, size) == moves;
      FilledFrom(r, c, k + 1, f - 1, size);
      assert k + f == k + 1 + (f - 1);
    }
  }

  /** The walk from `c` after `k` of `n` entries; beyond a whole turn it is only known to be as far
      as the entries alone would get. */
  ghost predicate Tracks(r: Ring, lin0: nat, cur: Cursor, moves: int, c: Cursor, k: nat, n: nat, size: nat) {
    && k <= n && moves >= 0
    && (InTurn(r, lin0, cur.lin) ==> AtHead(r, cur, moves, c, k, size) && (k == n ==> cur == PutMany(r, c, k, size)))
    && (!InTurn(r, lin0, cur.lin) ==> k < n && !InTurn(r, lin0, PutMany(r, c, k + 1, size).lin))
  }

  /** The walk after its last entry. */
  ghost predicate Arrived(r: Ring, lin0: nat, cur: Cursor, moves: int, c: Cursor, n: nat, size: nat) {
    var p := PutMany(r, c, n, size);
    && (InTurn(r, lin0, cur.lin) <==> InTurn(r, lin0, p.lin))
    && (InTurn(r, lin0, cur.lin) ==> cur == p && moves == Opened(r, c, n, size))
  }

  /** Filling the current sector with `f` entries and moving on. */
  lemma TracksNext(r: Ring, lin0: nat, cur: Cursor, moves: int, c: Cursor, k: nat, n: nat, size: nat, f: nat,
          cur': Cursor)
    requires Tracks(r, lin0, cur, moves, c, k, n, size) && k + f < n && 0 < size <= r.bs
    requires (f > 0 ==> !cur.blocked) && cur.inPos + Bytes(f, size) <= r.bs
    requires var full := cur.(inPos := cur.inPos + Bytes(f, size));
             && !Room(r, full, size) && cur'.lin == full.lin + r.bs
             && (InTurn(r, lin0, cur'.lin) ==> cur' == NextSector(r, full))
    ensures Tracks(r, lin0, cur', moves + 1, c, k + f, n, size)
  {
    if InTurn(r, lin0, cur.lin) {
      if f > 0 { Filled(r, cur, moves, c, k, f, size); }
      assert PutMany(r, c, k + f + 1, size).lin == cur.lin + r.bs;
    } else {
      LinGrows(r, c, k + 1, k + f + 1, size);
    }
  }

  lemma TracksLast(r: Ring, lin0: nat, cur: Cursor, moves: int, c: Cursor, k: nat, n: nat, size: nat, f: nat)
    requires Tracks(r, lin0, cur, moves, c, k, n, size) && k + f == n && 0 < size <= r.bs
    requires (f > 0 ==> !cur.blocked) && cur.inPos + Bytes(f, size) <= r.bs
    ensures Arrived(r, lin0, cur.(inPos := cur.inPos + Bytes(f, size)), moves, c, n, size)
  {
    if InTurn(r, lin0, cur.lin) {
      if f > 0 { Filled(r, cur, moves, c, k, f, size); }
    } else {
      LinGrows(r, c, k + 1, n, size);
    }
  }

  /** The verdict on free space from the position, the direction flag and the data length. */
  predicate SpaceLeft(r: Ring, pos: nat, right: bool, data: nat) {
    var wraps := data > 0 && pos + data >= r.len;
    var pos' := if wraps && right then r.bs + data else pos + data;
    !(!(right && !wraps) && pos' >= r.start - r.bs)
  }

  lemma SpaceLeftIsAccepted(r: Ring, c: Cursor, data: nat)
    ensures SpaceLeft(r, c.pos, FirstTurn(r, c.lin), data) == Accepted(r, c, data)
  {
  }

  /** What a positive verdict is worth. The batch passes all assertions of the writer exactly when
      the walk has not gone past the end of the ring a second time; and if it has not, it stands
      where the writer will stand and the space after it is enough. */
  ghost predicate Sound(r: Ring, c0: Cursor, n: nat, size: nat, data: nat, c: Cursor) {
    && (BatchSafe(r, c0, n, size) <==> c.lin < Limit(r))
    && (c.lin < Limit(r) ==> c == PutMany(r, c0, n, size) && Accepted(r, c, data))
  }

  lemma Verdicts(r: Ring, lin0: nat, c: Cursor, moves: nat, c0: Cursor, n: nat, size: nat, data: nat)
    requires Placed(r, c0) && c0.lin < r.Capacity() && lin0 <= c0.lin && 0 < size <= r.bs
    requires c.lin < Limit(r) ==> Placed(r, c)
    requires Arrived(r, lin0, c, moves, c0, n, size)
    ensures SpaceLeft(r, c.pos, FirstTurn(r, c.lin), data) == Accepted(r, c, data)
    ensures Accepted(r, c, data) ==> Sound(r, c0, n, size, data, c) && (c.lin < Limit(r) ==> InTurn(r, lin0, c.lin))
    ensures Accepted(r, c, data) ==> (BatchSafe(r, c0, n, size) <==> InTurn(r, lin0, PutMany(r, c0, n, size).lin))
    ensures !Accepted(r, c, data) ==> !BatchSafe(r, c0, n, size) || !Accepted(r, PutMany(r, c0, n, size), data)
    ensures var p := PutMany(r, c0, n, size);
            && (p.lin < r.Capacity() ==>
                  (Accepted(r, c, data) <==>
                   r.start + Reach(r, p, data) < r.len || Reach(r, p, data) + r.bs < r.Capacity()))
            && (!Accepted(r, c, data) ==> Reach(r, p, data) + r.bs >= r.Capacity())
  {
    SpaceLeftIsAccepted(r, c, data);
    BatchSafeIff(r, c0, n, size);
    if c.lin < Limit(r) { AcceptedIff(r, c, data); }
  }

  // ----- the walk

  /** The fields of the check object: the position it has come to, the buffer it would use there and
      the first buffer it used, the fill of the sector, the direction flag and the sector count. */
  datatype Walk = Walk(pos: nat, sector: nat, first: int, inPos: nat, right: bool, toWrite: nat)

  ghost predicate Walking(j: View, lin0: nat, w: Walk, lin: nat) {
    && w.sector < |j.sectors| && -1 <= w.first < |j.sectors|
    && lin0 <= lin && (lin == lin0 ==> w.pos == j.nextFree)
    && j.ring.bs <= w.pos < j.ring.len && Aligned(j.ring.bs, w.pos) && w.inPos <= j.ring.bs
    && (w.right <==> FirstTurn(j.ring, lin))
    && (lin < Limit(j.ring) ==> w.pos == At(j.ring, lin))
  }

  predicate Blocked(j: View, w: Walk)
    requires w.sector < |j.sectors|
  {
    j.noOverwrite && w.pos == j.nextFree && j.sectors[w.sector].written
  }

  function Cur(j: View, w: Walk, lin: nat): Cursor
    requires w.sector < |j.sectors|
  {
    Cursor(w.pos, lin, w.inPos, Blocked(j, w))
  }

  function Fits(j: View, w: Walk, size: nat): nat
    requires w.sector < |j.sectors| && w.inPos <= j.ring.bs && size > 0
  {
    if Blocked(j, w) then 0 else FitCount(j.ring.bs - w.inPos, size)
  }

  /** Puts `f` entries into the current sector; it counts as written if it takes any or is dirty. */
  function Fill(j: View, w: Walk, f: nat, size: nat, prevNext: nat): Walk
    requires w.sector < |j.sectors| && w.inPos <= j.ring.bs && size > 0
  {
    var any := Fits(j, w, size) > 0;
    w.(inPos := w.inPos + Bytes(f, size),
       first := if any && w.first == -1 then w.sector else w.first,
       toWrite := if (any || j.sectors[w.sector].dirty) && (w.sector != prevNext || w.toWrite == 0) then w.toWrite + 1
                  else w.toWrite)
  }

  /** Moves to the next sector and the next buffer. */
  function Advance(j: View, w: Walk): Walk {
    var pos := w.pos + j.ring.bs;
    w.(pos := Wrap(j.ring.bs, j.ring.len, pos), right := w.right && pos < j.ring.len, inPos := 0,
       sector := if w.sector + 1 == |j.sectors| then 0 else w.sector + 1)
  }

  lemma FillKeeps(j: View, lin0: nat, w: Walk, lin: nat, f: nat, size: nat, required: nat, prevNext: nat)
    requires j.Ok(lin0) && Walking(j, lin0, w, lin) && 0 < size <= j.ring.bs
    requires f == if Fits(j, w, size) > required then required else Fits(j, w, size)
    ensures w.inPos + Bytes(f, size) <= j.ring.bs && (f > 0 ==> !Blocked(j, w))
    ensures Fits(j, w, size) > 0 <==> Room(j.ring, Cur(j, w, lin), size)
    ensures var w' := Fill(j, w, f, size, prevNext);
            && Walking(j, lin0, w', lin) && Cur(j, w', lin) == Cur(j, w, lin).(inPos := w.inPos + Bytes(f, size))
            && (f < required ==> !Room(j.ring, Cur(j, w', lin), size))
  {
    FitsBound(j.ring.bs - w.inPos, size, required);
  }

  lemma AdvanceKeeps(j: View, lin0: nat, w: Walk, lin: nat)
    requires j.Ok(lin0) && Walking(j, lin0, w, lin)
    ensures var w', lin' := Advance(j, w), lin + j.ring.bs;
            && Walking(j, lin0, w', lin') && w'.pos != w.pos
            && (InTurn(j.ring, lin0, lin') ==> Cur(j, w', lin') == NextSector(j.ring, Cur(j, w, lin)))
  {
    MoveFacts(j.ring, lin0, w.pos, lin);
  }

  /** Between two sectors. Only a walk that has just started may find its sector full. */
  ghost predicate Rolling(j: View, lin0: nat, w: Walk, lin: nat, moves: nat, c: Cursor, k: nat, n: nat, size: nat) {
    && Walking(j, lin0, w, lin)
    && Tracks(j.ring, lin0, Cur(j, w, lin), moves, c, k, n, size)
    && (w.first == -1 && lin != lin0 ==> !Blocked(j, w) && w.inPos == 0)
  }

  /** A bound on the moves left: the walk ends when it comes back to the first buffer it used. */
  ghost function Budget(j: View, lin0: nat, w: Walk, lin: nat): int {
    if w.first == -1 then (if lin == lin0 then |j.sectors| + 2 else |j.sectors| + 1)
    else if w.sector < w.first then w.first - w.sector
    else w.first - w.sector + |j.sectors|
  }

  lemma Moves(j: View, lin0: nat, w: Walk, lin: nat, moves: nat, c: Cursor, k: nat, n: nat, size: nat, prevNext: nat)
    requires j.Ok(lin0) && 0 < size <= j.ring.bs && Rolling(j, lin0, w, lin, moves, c, k, n, size)
    requires k + Fits(j, w, size) < n
    ensures var f := Fits(j, w, size);
            var w', lin' := Advance(j, Fill(j, w, f, size, prevNext)), lin + j.ring.bs;
            && Rolling(j, lin0, w', lin', moves + 1, c, k + f, n, size)
            && (InTurn(j.ring, lin0, lin') ==> Fits(j, w', size) > 0)
            && (w'.sector != w'.first ==> 0 < Budget(j, lin0, w', lin') < Budget(j, lin0, w, lin))
  {
    var f := Fits(j, w, size);
    FillKeeps(j, lin0, w, lin, f, size, n - k, prevNext);
    var w1 := Fill(j, w, f, size, prevNext);
    AdvanceKeeps(j, lin0, w1, lin);
    TracksNext(j.ring, lin0, Cur(j, w, lin), moves, c, k, n, size, f, Cur(j, Advance(j, w1), lin + j.ring.bs));
  }

  lemma Stops(j: View, lin0: nat, w: Walk, lin: nat, moves: nat, c: Cursor, k: nat, n: nat, size: nat, prevNext: nat)
    requires j.Ok(lin0) && 0 < size <= j.ring.bs && Rolling(j, lin0, w, lin, moves, c, k, n, size)
    requires k <= n <= k + Fits(j, w, size)
    ensures var w' := Fill(j, w, n - k, size, prevNext);
            && Walking(j, lin0, w', lin) && Arrived(j.ring, lin0, Cur(j, w', lin), moves, c, n, size)
            && (w'.first == -1 ==> lin == lin0)
  {
    FillKeeps(j, lin0, w, lin, n - k, size, n - k, prevNext);
    TracksLast(j.ring, lin0, Cur(j, w, lin), moves, c, k, n, size, n - k);
  }

  // ----- the number of sectors to write

  function NextBuffer(count: nat, i: nat): nat { if i + 1 == count then 0 else i + 1 }

  /** Whether the sector where the check starts has to be written: it takes an entry or is dirty. */
  predicate StartUsed(j: View, w0: Walk, size: nat)
    requires w0.sector < |j.sectors| && w0.inPos <= j.ring.bs && size > 0
  {
    Fits(j, w0, size) > 0 || j.sectors[w0.sector].dirty
  }

  /** A fresh walk after `moves` moves, before it looks at its current sector. */
  ghost predicate Counted(j: View, w0: Walk, w: Walk, moves: nat, size: nat) {
    var count := |j.sectors|;
    && w0.sector < count && w0.inPos <= j.ring.bs && w.inPos <= j.ring.bs && size > 0 && moves <= count
    && w.sector == (if w0.sector + moves < count then w0.sector + moves else w0.sector + moves - count)
    && (moves == 0 ==> w == w0 && w.first == -1 && w.toWrite == 0)
    && (moves > 0 ==>
          && Fits(j, w, size) > 0
          && w.first == (if Fits(j, w0, size) > 0 then w0.sector
                         else if moves == 1 then -1 else NextBuffer(count, w0.sector))
          && w.toWrite == moves - (if StartUsed(j, w0, size) then 0 else 1)
          && w.first != w.sector && !j.sectors[w.sector].Busy())
  }

  lemma CountNext(j: View, w0: Walk, w: Walk, moves: nat, size: nat, f: nat)
    requires Counted(j, w0, w, moves, size)
    requires var w' := Advance(j, Fill(j, w, f, size, w0.sector));
             w'.sector < |j.sectors| && w'.sector != w'.first && !j.sectors[w'.sector].Busy() && Fits(j, w', size) > 0
    ensures Counted(j, w0, Advance(j, Fill(j, w, f, size, w0.sector)), moves + 1, size)
  {
  }

  /** The check counts the start sector, if used, and one for every opened sector, unless the batch
      opens as many sectors as there are buffers, two or more: then the walk comes back to the unused
      start buffer and does not count it. */
  lemma CountLast(j: View, w0: Walk, w: Walk, moves: nat, size: nat, f: nat)
    requires Counted(j, w0, w, moves, size)
    ensures Fill(j, w, f, size, w0.sector).toWrite
         == One(StartUsed(j, w0, size)) + moves - One(moves == |j.sectors| >= 2)
  {
  }

  /** The writer of a batch: it submits the current sector before it moves on from it, if that is dirty,
      and the last one at the end. So it submits the start sector, if used, and every opened one. */
  method SubmitBatch(r: Ring, c0: Cursor, startDirty: bool, n: nat, size: nat) returns (submitted: nat, c: Cursor)
    requires n > 0 && 0 < size <= r.bs
    ensures c == PutMany(r, c0, n, size)
    ensures submitted == One(Room(r, c0, size) || startDirty) + Opened(r, c0, n, size)
  {
    c, submitted := c0, 0;
    var dirty := startDirty;
    for i := 0 to n
      invariant c == PutMany(r, c0, i, size)
      invariant if i == 0 then submitted == 0 && dirty == startDirty
                else dirty && submitted + 1 == One(Room(r, c0, size) || startDirty) + Opened(r, c0, i, size)
    {
      if !Room(r, c, size) {
        if dirty {
          submitted := submitted + 1;
        }
        c := NextSector(r, c);
      }
      c, dirty := c.(inPos := c.inPos + size), true;
    }
    submitted := submitted + 1;
  }

  /** A check object that has not been used yet. */
  predicate Fresh(w: Walk) { w.first == -1 && w.toWrite == 0 }

  function Step(j: View, w: Walk, size: nat, prevNext: nat): Walk
    requires w.sector < |j.sectors| && w.inPos <= j.ring.bs && size > 0
  {
    Advance(j, Fill(j, w, Fits(j, w, size), size, prevNext))
  }

  /** Coming to a new buffer: the walk must not come round to its first one nor to a busy one. */
  function BufferVerdict(j: View, w: Walk): Verdict
    requires w.sector < |j.sectors|
  {
    if w.sector == w.first then BatchTooBig else if j.sectors[w.sector].Busy() then WaitBuffer else Available
  }

  /** The loop invariant of the check. */
  ghost predicate InLoop(j: View, w0: Walk, lin0: nat, l0: nat, n: nat, size: nat,
                         v: Verdict, w: Walk, required: nat, lin: nat, moves: nat) {
    && w0.sector < |j.sectors| && required <= n && 0 < size <= j.ring.bs
    && Rolling(j, lin0, w, lin, moves, Cur(j, w0, l0), n - required, n, size)
    && !v.WaitSpace? && (v.WaitBuffer? ==> j.sectors[w.sector].Busy()) && (v.BatchTooBig? ==> w.sector == w.first)
    && (v.Available? && Fresh(w0) && InTurn(j.ring, lin0, lin) ==> Counted(j, w0, w, moves, size))
  }

  lemma NextInLoop(j: View, w0: Walk, lin0: nat, l0: nat, n: nat, size: nat, w: Walk, required: nat, lin: nat,
          moves: nat)
    requires j.Ok(lin0) && InLoop(j, w0, lin0, l0, n, size, Available, w, required, lin, moves)
    requires Fits(j, w, size) < required
    ensures var w', lin' := Step(j, w, size, w0.sector), lin + j.ring.bs;
            && w'.sector < |j.sectors|
            && InLoop(j, w0, lin0, l0, n, size, BufferVerdict(j, w'), w', required - Fits(j, w, size), lin', moves + 1)
            && (BufferVerdict(j, w').Available? ==> 0 < Budget(j, lin0, w', lin') < Budget(j, lin0, w, lin))
  {
    Moves(j, lin0, w, lin, moves, Cur(j, w0, l0), n - required, n, size, w0.sector);
    var w', lin' := Step(j, w, size, w0.sector), lin + j.ring.bs;
    if BufferVerdict(j, w').Available? && Fresh(w0) && InTurn(j.ring, lin0, lin') {
      CountNext(j, w0, w, moves, size, Fits(j, w, size));
    }
  }

  /** The state of the loop: the walk, how many entries are still to be placed, and the verdict so far. */
  datatype Loop = Loop(v: Verdict, w: Walk, required: nat, lin: nat)

  predicate Goes(j: View, size: nat, s: Loop) {
    && s.w.sector < |j.sectors| && s.w.inPos <= j.ring.bs && size > 0
    && s.v.Available? && Fits(j, s.w, size) < s.required
  }

  /** The state after `i` rounds. */
  ghost function After(j: View, size: nat, prevNext: nat, s: Loop, i: nat): Loop {
    if i == 0 then s
    else
      var p := After(j, size, prevNext, s, i - 1);
      if !Goes(j, size, p) then p
      else
        var w := Step(j, p.w, size, prevNext);
        Loop(if w.sector < |j.sectors| then BufferVerdict(j, w)
            else p.v, w, p.required - Fits(j, p.w, size), p.lin + j.ring.bs)
  }

  lemma {:induction false} AfterInLoop(j: View, w0: Walk, lin0: nat, l0: nat, n: nat, size: nat, i: nat)
    requires j.Ok(lin0) && Walking(j, lin0, w0, l0) && InTurn(j.ring, lin0, l0) && 0 < size <= j.ring.bs
    requires w0.first == -1 ==> l0 == lin0
    requires forall k :: 0 <= k < i ==> Goes(j, size, After(j, size, w0.sector, Loop(Available, w0, n, l0), k))
    ensures var s := After(j, size, w0.sector, Loop(Available, w0, n, l0), i);
            InLoop(j, w0, lin0, l0, n, size, s.v, s.w, s.required, s.lin, i)
  {
    hide PutMany, Opened, FitCount, Bytes, Counted, Limit, InLoop;
    if i == 0 {
      StartInLoop(j, w0, lin0, l0, n, size);
    } else {
      AfterInLoop(j, w0, lin0, l0, n, size, i - 1);
      var p := After(j, size, w0.sector, Loop(Available, w0, n, l0), i - 1);
      NextInLoop(j, w0, lin0, l0, n, size, p.w, p.required, p.lin, i - 1);
    }
  }

  lemma StartInLoop(j: View, w0: Walk, lin0: nat, l0: nat, n: nat, size: nat)
    requires j.Ok(lin0) && Walking(j, lin0, w0, l0) && InTurn(j.ring, lin0, l0) && 0 < size <= j.ring.bs
    requires w0.first == -1 ==> l0 == lin0
    ensures InLoop(j, w0, lin0, l0, n, size, Available, w0, n, l0, 0)
  {
  }

  lemma RoundAfter(j: View, w0: Walk, lin0: nat, l0: nat, n: nat, size: nat, i: nat)
    requires j.Ok(lin0) && Walking(j, lin0, w0, l0) && InTurn(j.ring, lin0, l0) && 0 < size <= j.ring.bs
    requires w0.first == -1 ==> l0 == lin0
    requires forall k :: 0 <= k <= i ==> Goes(j, size, After(j, size, w0.sector, Loop(Available, w0, n, l0), k))
    ensures var p := After(j, size, w0.sector, Loop(Available, w0, n, l0), i);
            var w := Step(j, p.w, size, w0.sector);
            && w.sector < |j.sectors| && w.inPos <= j.ring.bs
            && (BufferVerdict(j, w).Available? ==>
                  0 < Budget(j, lin0, w, p.lin + j.ring.bs) < Budget(j, lin0, p.w, p.lin))
  {
    hide PutMany, Opened, FitCount, Bytes, Counted, After, Tracks, Limit, At;
    AfterInLoop(j, w0, lin0, l0, n, size, i);
    var p := After(j, size, w0.sector, Loop(Available, w0, n, l0), i);
    NextInLoop(j, w0, lin0, l0, n, size, p.w, p.required, p.lin, i);
  }

  /** The loop ends after `moves` rounds. */
  ghost predicate EndsAfter(j: View, size: nat, prevNext: nat, s: Loop, moves: nat) {
    && (forall k :: 0 <= k < moves ==> Goes(j, size, After(j, size, prevNext, s, k)))
    && !Goes(j, size, After(j, size, prevNext, s, moves))
  }

  /** The verdict and the walk when the loop has ended in state `s`, with `data` bytes to follow. */
  function Outcome(j: View, size: nat, prevNext: nat, s: Loop, data: nat): (Verdict, Walk)
    requires s.w.sector < |j.sectors| && s.w.inPos <= j.ring.bs && size > 0
  {
    if !s.v.Available? then (s.v, s.w)
    else
      var w := Fill(j, s.w, s.required, size, prevNext);
      (if SpaceLeft(j.ring, w.pos, w.right, data) then Available else WaitSpace, w)
  }

  /** What the walk has found when the loop ends. */
  ghost predicate Found(j: View, w0: Walk, lin0: nat, l0: nat, n: nat, size: nat, v: Verdict, w: Walk, lin: nat,
          moves: nat) {
    && w0.sector < |j.sectors| && w0.inPos <= j.ring.bs && size > 0
    && Walking(j, lin0, w, lin) && !v.WaitSpace?
    && (v.Available? ==>
          && Arrived(j.ring, lin0, Cur(j, w, lin), moves, Cur(j, w0, l0), n, size) && (w.first == -1 ==> lin == lin0)
          && (Fresh(w0) && InTurn(j.ring, lin0, lin) ==>
                w.toWrite == One(StartUsed(j, w0, size)) + moves - One(moves == |j.sectors| >= 2)))
    && (v.WaitBuffer? ==> j.sectors[w.sector].Busy())
    && (v.BatchTooBig? ==> w.sector == w.first)
  }

  lemma LoopEnds(j: View, w0: Walk, lin0: nat, l0: nat, n: nat, size: nat, i: nat)
    requires j.Ok(lin0) && Walking(j, lin0, w0, l0) && InTurn(j.ring, lin0, l0) && 0 < size <= j.ring.bs
    requires w0.first == -1 ==> l0 == lin0
    requires forall k :: 0 <= k < i ==> Goes(j, size, After(j, size, w0.sector, Loop(Available, w0, n, l0), k))
    requires !Goes(j, size, After(j, size, w0.sector, Loop(Available, w0, n, l0), i))
    ensures var s := After(j, size, w0.sector, Loop(Available, w0, n, l0), i);
            && s.w.sector < |j.sectors| && s.w.inPos <= j.ring.bs
            && Found(j, w0, lin0, l0, n, size, s.v,
                     if s.v.Available? then Fill(j, s.w, s.required, size, w0.sector) else s.w, s.lin, i)
  {
    AfterInLoop(j, w0, lin0, l0, n, size, i);
    var s := After(j, size, w0.sector, Loop(Available, w0, n, l0), i);
    if s.v.Available? {
      Stops(j, lin0, s.w, s.lin, i, Cur(j, w0, l0), n - s.required, n, size, w0.sector);
      if Fresh(w0) && InTurn(j.ring, lin0, s.lin) { CountLast(j, w0, s.w, i, size, s.required); }
    }
  }

  /** The loop of the check: until all entries are placed or no buffer is left. */
  method WalkOver(j: View, w0: Walk, n: nat, size: nat, ghost lin0: nat, ghost l0: nat)
      returns (v: Verdict, w: Walk, ghost lin: nat, ghost moves: nat)
    requires j.Ok(lin0) && Walking(j, lin0, w0, l0) && InTurn(j.ring, lin0, l0) && 0 < size <= j.ring.bs
    requires w0.first == -1 ==> l0 == lin0
    ensures Found(j, w0, lin0, l0, n, size, v, w, lin, moves)
    ensures var s0 := Loop(Available, w0, n, l0);
            var s := After(j, size, w0.sector, s0, moves);
            && EndsAfter(j, size, w0.sector, s0, moves) && s.v == v && s.lin == lin
            && s.w.sector < |j.sectors| && s.w.inPos <= j.ring.bs
            && w == if v.Available? then Fill(j, s.w, s.required, size, w0.sector) else s.w
  {
    hide PutMany, Opened, FitCount, Bytes, Found, Tracks, Counted;
    ghost var s0 := Loop(Available, w0, n, l0);
    var required: nat := n;
    v, w, lin, moves := Available, w0, l0, 0;
    while v.Available? && Fits(j, w, size) < required
      invariant Loop(v, w, required, lin) == After(j, size, w0.sector, s0, moves)
      invariant w.sector < |j.sectors| && w.inPos <= j.ring.bs
      invariant forall k :: 0 <= k < moves ==> Goes(j, size, After(j, size, w0.sector, s0, k))
      decreases v.Available?, Budget(j, lin0, w, lin)
    {
      RoundAfter(j, w0, lin0, l0, n, size, moves);
      required := required - Fits(j, w, size);
      w := Step(j, w, size, w0.sector);
      lin, moves := lin + j.ring.bs, moves + 1;
      v := BufferVerdict(j, w);
    }
    LoopEnds(j, w0, lin0, l0, n, size, moves);
    if v.Available? {
      w := Fill(j, w, required, size, w0.sector);
    }
  }

  // ----- the buffers on the way

  /** The buffer after `i` moves: they are used in turn. */
  ghost function Hop(count: nat, start: nat, i: nat): nat {
    if i == 0 then start
    else
      var h := Hop(count, start, i - 1);
      if h + 1 == count then 0 else h + 1
  }

  lemma {:induction false} HopBounds(count: nat, start: nat, i: nat)
    requires start < count
    ensures Hop(count, start, i) < count
    ensures i < count ==> Hop(count, start, i) == if start + i < count then start + i else start + i - count
  {
    if i > 0 { HopBounds(count, start, i - 1); }
  }

  lemma {:induction false} HopAdd(count: nat, start: nat, i: nat, k: nat)
    ensures Hop(count, start, i + k) == Hop(count, Hop(count, start, i), k)
    decreases k
  {
    if k > 0 {
      HopAdd(count, start, i, k - 1);
      assert i + k - 1 == i + (k - 1);
    }
  }

  /** A buffer is met again only after all others. */
  lemma HopRound(count: nat, start: nat, i: nat, k: nat)
    requires start < count && i < k && Hop(count, start, i) == Hop(count, start, k)
    ensures k >= i + count
  {
    HopAdd(count, start, i, k - i);
    HopBounds(count, start, i);
    HopBounds(count, Hop(count, start, i), k - i);
  }

  predicate Idle(b: Buffer) { !b.dirty && b.flushCount == 0 }

  /** Every buffer that is entered before the last one is idle. The last one is, too, unless the verdict is about the
      buffers: then it is dirty or being written, or it is the second time that the walk meets it. */
  ghost predicate Passes(sectors: seq<Buffer>, start: nat, unused: bool, v: Verdict, moves: nat) {
    var count := |sectors|;
    && (forall i :: 0 < i < moves && Hop(count, start, i) < count ==> Idle(sectors[Hop(count, start, i)]))
    && Hop(count, start, moves) < count
    && var last := sectors[Hop(count, start, moves)];
    && (v.Available? || v.WaitSpace? ==> moves == 0 || Idle(last))
    && (v.WaitBuffer? ==> moves > 0 && (last.dirty || last.flushCount > 0))
    && (v.BatchTooBig? && unused ==> moves >= count)
  }

  /** The first used buffer is one of those that the walk has been to. */
  ghost predicate FirstMet(count: nat, start: nat, w: Walk, moves: nat) {
    w.first == -1 || exists i :: 0 <= i < moves && Hop(count, start, i) == w.first
  }

  lemma FirstStays(count: nat, start: nat, w: Walk, w': Walk, moves: nat)
    requires FirstMet(count, start, w, moves) && w.sector == Hop(count, start, moves)
    requires w'.first == w.first || w'.first == w.sector
    ensures FirstMet(count, start, w', moves + 1)
  {
  }

  lemma {:induction false} HopsTo(j: View, size: nat, prevNext: nat, s0: Loop, moves: nat)
    requires s0.v.Available? && s0.w.sector < |j.sectors|
    requires forall k :: 0 <= k < moves ==> Goes(j, size, After(j, size, prevNext, s0, k))
    ensures var s := After(j, size, prevNext, s0, moves);
            && s.w.sector == Hop(|j.sectors|, s0.w.sector, moves) < |j.sectors|
            && (s0.w.first == -1 ==> FirstMet(|j.sectors|, s0.w.sector, s.w, moves))
            && s.v == if moves == 0 then Available else BufferVerdict(j, s.w)
  {
    hide FitCount, Bytes, FirstMet;
    HopBounds(|j.sectors|, s0.w.sector, moves);
    if moves == 0 {
      if s0.w.first == -1 { NoneMet(|j.sectors|, s0.w); }
    } else {
      HopsTo(j, size, prevNext, s0, moves - 1);
      var p := After(j, size, prevNext, s0, moves - 1);
      var w := Step(j, p.w, size, prevNext);
      if s0.w.first == -1 { FirstStays(|j.sectors|, s0.w.sector, p.w, w, moves - 1); }
    }
  }

  lemma NoneMet(count: nat, w: Walk)
    requires w.first == -1
    ensures FirstMet(count, w.sector, w, 0)
  {
  }

  lemma PassesAll(j: View, size: nat, prevNext: nat, s0: Loop, moves: nat)
    requires s0.v.Available? && s0.w.sector < |j.sectors| && EndsAfter(j, size, prevNext, s0, moves)
    ensures var v := After(j, size, prevNext, s0, moves).v;
            && Passes(j.sectors, s0.w.sector, s0.w.first == -1, v, moves)
            && (v.Available? ==> Passes(j.sectors, s0.w.sector, s0.w.first == -1, WaitSpace, moves))
  {
    hide After;
    var count, start := |j.sectors|, s0.w.sector;
    forall i | 0 < i < moves ensures Hop(count, start, i) < count && Idle(j.sectors[Hop(count, start, i)]) {
      HopsTo(j, size, prevNext, s0, i);
      assert Goes(j, size, After(j, size, prevNext, s0, i));
    }
    HopsTo(j, size, prevNext, s0, moves);
    var s := After(j, size, prevNext, s0, moves);
    if s.v.BatchTooBig? && s0.w.first == -1 {
      var i :| 0 <= i < moves && Hop(count, start, i) == s.w.first;
      HopRound(count, start, i, moves);
    }
  }

  class SpaceCheck {
    const j: View
    ghost const lin0: nat
    var w: Walk
    ghost var lin: nat

    ghost predicate Valid()
      reads this
    {
      j.Ok(lin0) && Walking(j, lin0, w, lin) && InTurn(j.ring, lin0, lin) && (w.first == -1 ==> lin == lin0)
    }

    constructor (j: View, ghost lin: nat)
      requires j.Ok(lin)
      ensures Valid() && this.j == j && this.lin == lin && this.lin0 == lin
      ensures w == Walk(j.nextFree, j.curSector, -1, j.inPos, j.nextFree >= j.ring.start, 0)
      ensures Cur(j, w, lin) == Cursor(j.nextFree, lin, j.inPos, j.noOverwrite && j.sectors[j.curSector].written)
    {
      this.j := j;
      this.lin0 := lin;
      this.lin := lin;
      w := Walk(j.nextFree, j.curSector, -1, j.inPos, j.nextFree >= j.ring.start, 0);
    }

    /** Looks for room for `n` entries of `size` bytes followed by `data` bytes. The ghost result is
        where the walk stood before counting the data; without data, the next call goes on from there. */
    method CheckAvailable(n: nat, size: nat, data: nat) returns (v: Verdict, ghost c: Cursor, ghost moves: nat)
      requires Valid() && lin < j.ring.Capacity() && 0 < size <= j.ring.bs
      modifies this
      ensures v.Available? ==> Sound(j.ring, old(Cur(j, w, lin)), n, size, data, c)
      ensures v.Available? ==>
                var c0 := old(Cur(j, w, lin));
                BatchSafe(j.ring, c0, n, size) <==> InTurn(j.ring, lin0, PutMany(j.ring, c0, n, size).lin)
      ensures v.Available? && c.lin < Limit(j.ring) && data == 0 ==> Valid() && Cur(j, w, lin) == c
      ensures v.Available? && c.lin < Limit(j.ring) && old(Fresh(w)) ==>
                var added := Opened(j.ring, old(Cur(j, w, lin)), n, size);
                w.toWrite == One(old(StartUsed(j, w, size))) + added - One(added == |j.sectors| >= 2)
      ensures v.WaitSpace? ==>
                || !BatchSafe(j.ring, old(Cur(j, w, lin)), n, size)
                || !Accepted(j.ring, PutMany(j.ring, old(Cur(j, w, lin)), n, size), data)
      ensures var p, r := PutMany(j.ring, old(Cur(j, w, lin)), n, size), j.ring;
              && (v.WaitSpace? ==> Reach(r, p, data) + r.bs >= r.Capacity())
              && (p.lin < r.Capacity() && (v.Available? || v.WaitSpace?) ==>
                    (v.WaitSpace? <==>
                     r.start + Reach(r, p, data) >= r.len && Reach(r, p, data) + r.bs >= r.Capacity()))
      ensures var s0 := Loop(Available, old(w), n, old(lin));
              var s := After(j, size, old(w).sector, s0, moves);
              && EndsAfter(j, size, old(w).sector, s0, moves) && s.w.sector < |j.sectors| && s.w.inPos <= j.ring.bs
              && v == Outcome(j, size, old(w).sector, s, data).0 && c.lin == s.lin
              && w.toWrite == Outcome(j, size, old(w).sector, s, data).1.toWrite
      ensures Passes(j.sectors, old(w).sector, old(w).first == -1, v, moves)
      ensures v.WaitBuffer? ==> w.sector < |j.sectors| && j.sectors[w.sector].Busy()
      ensures v.BatchTooBig? ==> w.sector == w.first
    {
      hide After, EndsAfter, PutMany, Opened, BatchSafe, Accepted, FitCount, Bytes, Reach, Passes, Hop, At, Limit;
      ghost var c0, s0 := Cur(j, w, lin), Loop(Available, w, n, lin);
      v, w, lin, moves := WalkOver(j, w, n, size, lin0, lin);
      PassesAll(j, size, s0.w.sector, s0, moves);
      c := Cur(j, w, lin);
      if v.Available? {
        Verdicts(j.ring, lin0, c, moves, c0, n, size, data);
        v := if SpaceLeft(j.ring, w.pos, w.right, data) then Available else WaitSpace;
        var wraps := data > 0 && w.pos + data >= j.ring.len;
        w := w.(pos := if wraps && w.right then j.ring.bs + data else w.pos + data, right := w.right && !wraps);
      }
    }
  }
}
