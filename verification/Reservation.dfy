/** The space check together with the writer: what the writer may rely on after a positive verdict, and
    the batches for which the verdict or the count of sectors is wrong. */
module Reservation {
  import opened Alignment
  import opened Basics
  import opened JournalRing
  import opened JournalCheck
  import opened JournalLog
  import opened JournalWriter

  // ----- the number of sectors to write

  /** A sync or stabilization: the check, then the writer. Its assertion that both count the same number
      of sectors holds if and only if the batch does not open as many sectors as there are buffers. */
  method SyncBatch(j: View, n: nat, size: nat, ghost lin: nat) returns (v: Verdict, reserved: nat, submitted: nat)
    requires j.Ok(lin) && n > 0 && 0 < size <= j.ring.bs
    ensures var c := Cursor(j.nextFree, lin, j.inPos, j.noOverwrite && j.sectors[j.curSector].written);
            v.Available? && BatchSafe(j.ring, c, n, size) ==>
              (reserved == submitted <==> !(Opened(j.ring, c, n, size) == |j.sectors| >= 2))
  {
    hide After, EndsAfter;
    var check := new SpaceCheck(j, lin);
    ghost var c, moves;
    v, c, moves := check.CheckAvailable(n, size, 0);
    reserved := check.w.toWrite;
    submitted := 0;
    if v.Available? {
      var here := Cursor(j.nextFree, 0, j.inPos, j.noOverwrite && j.sectors[j.curSector].written);
      var p;
      submitted, p := SubmitBatch(j.ring, here, j.sectors[j.curSector].dirty, n, size);
      AnyDistance(j.ring, here, lin, n, size);
      FitsBound(j.ring.bs - j.inPos, size, 0);
    }
  }

  /** How many sectors a batch opens does not depend on the distance covered before. */
  lemma {:induction false} AnyDistance(r: Ring, c: Cursor, lin: nat, n: nat, size: nat)
    ensures var p, q := PutMany(r, c, n, size), PutMany(r, c.(lin := lin), n, size);
            q == p.(lin := q.lin) && Opened(r, c.(lin := lin), n, size) == Opened(r, c, n, size)
  {
    if n > 0 { AnyDistance(r, c, lin, n - 1, size); }
  }

  // ----- concrete batches, with stabilization entries of 40 bytes in sectors of 4 KiB

  lemma {:induction false} AlignedTimes(bs: nat, k: nat)
    requires bs > 0
    ensures Aligned(bs, bs * k)
  {
    if k > 0 {
      AlignedTimes(bs, k - 1);
      assert bs * k == bs + bs * (k - 1);
      AlignedSum(bs, bs, bs * (k - 1));
      AlignedSum(bs, 0, bs);
    }
  }

  lemma {:induction false} BytesIs(n: nat)
    ensures Bytes(n, 40) == 40 * n
  {
    if n > 0 { BytesIs(n - 1); }
  }

  lemma {:induction false} FitCountIs(room: nat)
    ensures FitCount(room, 40) == room / 40
  {
    if room >= 40 { FitCountIs(room - 40); }
  }

  /** The loop ends after one number of rounds only. */
  lemma EndsOnce(j: View, size: nat, prevNext: nat, s: Loop, a: nat, b: nat)
    requires EndsAfter(j, size, prevNext, s, a) && EndsAfter(j, size, prevNext, s, b)
    ensures a == b
  {
    hide After, Goes;
  }

  /** One round of the check over idle buffers, with 40 bytes per entry. */
  lemma Round(j: View, prevNext: nat, s: Loop, i: nat, p: Loop, fits: nat)
    requires After(j, 40, prevNext, s, i) == p && p.v.Available? && p.w.sector < |j.sectors| && p.w.inPos <= j.ring.bs
    requires fits == (if Blocked(j, p.w) then 0 else (j.ring.bs - p.w.inPos) / 40) && fits < p.required
    ensures Goes(j, 40, p)
    ensures var w := p.w.(pos := Wrap(j.ring.bs, j.ring.len, p.w.pos + j.ring.bs), inPos := 0,
                          right := p.w.right && p.w.pos + j.ring.bs < j.ring.len,
                          sector := if p.w.sector + 1 == |j.sectors| then 0 else p.w.sector + 1,
                          first := if fits > 0 && p.w.first == -1 then p.w.sector else p.w.first,
                          toWrite := p.w.toWrite + One((fits > 0 || j.sectors[p.w.sector].dirty)
                                                       && (p.w.sector != prevNext || p.w.toWrite == 0)));
            After(j, 40, prevNext, s, i + 1) == Loop(BufferVerdict(j, w), w, p.required - fits, p.lin + j.ring.bs)
  {
    FitCountIs(j.ring.bs - p.w.inPos);
  }

  lemma LastRound(j: View, prevNext: nat, s: Loop, i: nat, p: Loop, fits: nat)
    requires After(j, 40, prevNext, s, i) == p && p.v.Available? && p.w.sector < |j.sectors| && p.w.inPos <= j.ring.bs
    requires fits == (if Blocked(j, p.w) then 0 else (j.ring.bs - p.w.inPos) / 40) && fits >= p.required
    ensures !Goes(j, 40, p)
  {
    FitCountIs(j.ring.bs - p.w.inPos);
  }

  /** Two buffers, a full and clean current sector, and 103 entries that need two new sectors. */
  const FULL_START := View(Ring(4096, 4194304, 4096), 8192, 0, 4096, false, seq(2, _ => Buffer(false, false, 0)))

  lemma FullStartOk()
    ensures FULL_START.Ok(4096)
  {
    AlignedTimes(4096, 1024);
    AlignedTimes(4096, 1);
    AlignedTimes(4096, 2);
  }

  lemma FullStartWalk()
    ensures var w0 := Walk(8192, 0, -1, 4096, true, 0);
            var s0 := Loop(Available, w0, 103, 4096);
            && EndsAfter(FULL_START, 40, 0, s0, 2)
            && After(FULL_START, 40, 0, s0, 2) == Loop(Available, Walk(16384, 0, 1, 0, true, 1), 1, 12288)
  {
    var j, s0 := FULL_START, Loop(Available, Walk(8192, 0, -1, 4096, true, 0), 103, 4096);
    Round(j, 0, s0, 0, s0, 0);
    var s1 := Loop(Available, Walk(12288, 1, -1, 0, true, 0), 103, 8192);
    Round(j, 0, s0, 1, s1, 102);
    var s2 := Loop(Available, Walk(16384, 0, 1, 0, true, 1), 1, 12288);
    LastRound(j, 0, s0, 2, s2, 102);
  }

  lemma FullStartOpens(lin: nat)
    ensures Opened(FULL_START.ring, Cursor(8192, lin, 4096, false), 103, 40) == 2
  {
    var r, c := FULL_START.ring, Cursor(8192, lin, 4096, false);
    var p := PutMany(r, c, 1, 40);
    assert PutMany(r, c, 0, 40) == c && Opened(r, c, 0, 40) == 0;
    assert p == Cursor(12288, lin + 4096, 40, false) && Opened(r, c, 1, 40) == 1;
    BytesIs(101);
    PutFits(r, p, 101, 40);
    PutManySplit(r, c, 1, 101, 40);
  }

  /** The check accepts the batch and counts one sector, the writer submits two. */
  method CountMismatch() returns (v: Verdict, reserved: nat, submitted: nat)
    ensures v.Available? && reserved == 1 && submitted == 2
  {
    hide After, EndsAfter, PutMany, Opened, Placed;
    FullStartOk();
    var check := new SpaceCheck(FULL_START, 4096);
    ghost var c, moves;
    v, c, moves := check.CheckAvailable(103, 40, 0);
    FullStartWalk();
    EndsOnce(FULL_START, 40, 0, Loop(Available, Walk(8192, 0, -1, 4096, true, 0), 103, 4096), moves, 2);
    reserved := check.w.toWrite;
    var p;
    submitted, p := SubmitBatch(FULL_START.ring, Cursor(8192, 4096, 4096, false), false, 103, 40);
    FullStartOpens(4096);
  }

  /** 32 idle buffers, a live part that starts in the last sector of a journal of 4 MiB, and two sectors
      of free space before it. */
  const SHORT_OF_SPACE :=
    View(Ring(4096, 4194304, 4190208), 4182016, 0, 4096, false, seq(32, _ => Buffer(false, false, 0)))

  lemma ShortOfSpaceOk()
    ensures SHORT_OF_SPACE.Ok(4182016)
  {
    AlignedTimes(4096, 1024);
    AlignedTimes(4096, 1023);
    AlignedTimes(4096, 1021);
  }

  lemma ShortOfSpaceWalk()
    ensures var s0 := Loop(Available, Walk(4182016, 0, -1, 4096, false, 0), 306, 4182016);
            && EndsAfter(SHORT_OF_SPACE, 40, 0, s0, 3)
            && After(SHORT_OF_SPACE, 40, 0, s0, 3) == Loop(Available, Walk(4096, 3, 1, 0, false, 2), 102, 4194304)
  {
    var j, s0 := SHORT_OF_SPACE, Loop(Available, Walk(4182016, 0, -1, 4096, false, 0), 306, 4182016);
    Round(j, 0, s0, 0, s0, 0);
    var s1 := Loop(Available, Walk(4186112, 1, -1, 0, false, 0), 306, 4186112);
    Round(j, 0, s0, 1, s1, 102);
    var s2 := Loop(Available, Walk(4190208, 2, 1, 0, false, 1), 204, 4190208);
    Round(j, 0, s0, 2, s2, 102);
    var s3 := Loop(Available, Walk(4096, 3, 1, 0, false, 2), 102, 4194304);
    LastRound(j, 0, s0, 3, s3, 102);
  }

  /** A batch of 306 stabilizations needs three sectors: the check passes the end of the ring, finds
      plenty of room behind it and accepts, but the writer runs into the start. */
  method ReservationOverrun() returns (v: Verdict)
    ensures v.Available?
    ensures !BatchSafe(SHORT_OF_SPACE.ring, Cursor(4182016, 4182016, 4096, false), 306, 40)
  {
    hide After, EndsAfter, PutMany, Opened, Placed, BatchSafe;
    ShortOfSpaceOk();
    var check := new SpaceCheck(SHORT_OF_SPACE, 4182016);
    ghost var c, moves;
    v, c, moves := check.CheckAvailable(306, 40, 0);
    ShortOfSpaceWalk();
    EndsOnce(SHORT_OF_SPACE, 40, 0, Loop(Available, Walk(4182016, 0, -1, 4096, false, 0), 306, 4182016), moves, 3);
  }

  // ----- from the verdict to the ring

  /** The check looks at the state of the log. */
  ghost predicate Views(j: View, log: RingLog)
    reads log
  {
    && j.curSector < |j.sectors| && j.ring == log.R() && j.nextFree == log.next && j.inPos == log.inPos
    && j.noOverwrite == log.f.noOverwrite && j.sectors[j.curSector].written == log.written
  }

  lemma ViewsOk(j: View, log: RingLog)
    requires log.Valid() && Views(j, log)
    ensures j.Ok(log.t.dist)
  {
  }

  /** A batch of stabilizations or rollbacks of versions that are referenced in `holders`. When the check
      accepts it, and it takes less than a turn and does not pass the end of the ring twice, all entries
      are appended and none of the writer's assertions fails. */
  method AppendBatch(log: RingLog, j: View, tags: seq<nat>, holders: seq<nat>, size: nat) returns (v: Verdict)
    requires log.Valid() && Views(j, log) && 0 < size <= j.ring.bs && |tags| == |holders|
    requires forall k :: 0 <= k < |holders| ==> holders[k] in log.t.live
    requires InTurn(log.R(), log.t.dist, PutMany(log.R(), log.Pos(), |tags|, size).lin)
    modifies log
    ensures log.Valid() && log.start == old(log.start) && log.t.live == old(log.t.live)
    ensures v.Available? ==>
              && Entries(log.t.ch) == old(Entries(log.t.ch)) + seq(|tags|, k requires 0 <= k < |tags| => Plain(tags[k]))
              && |log.t.under| == old(|log.t.under|) + |tags|
    ensures !v.Available? ==> Entries(log.t.ch) == old(Entries(log.t.ch))
  {
    hide After, EndsAfter, PutMany, Opened, BatchSafe, Entries, Good, OpenOk, NoneEmpty, Passes, Hop, Reach;
    ViewsOk(j, log);
    var check := new SpaceCheck(j, log.t.dist);
    ghost var c, moves;
    v, c, moves := check.CheckAvailable(|tags|, size, 0);
    if v.Available? {
      ghost var r, c0 := log.R(), log.Pos();
      BatchSafeIff(r, c0, |tags|, size);
      assert PutMany(r, c0, 0, size) == c0 by { PutNone(r, c0, size); }
      for i := 0 to |tags|
        invariant log.Valid() && log.R() == r && log.t.live == old(log.t.live) && (i > 0 ==> log.dirty)
        invariant log.Pos() == PutMany(r, c0, i, size) && |log.t.under| == old(|log.t.under|) + i
        invariant Entries(log.t.ch) == old(Entries(log.t.ch)) + seq(i, k requires 0 <= k < i => Plain(tags[k]))
      {
        PutOne(r, c0, i, |tags|, size);
        var at := log.Place(tags[i], size, false, 0, false, holders[i]);
      }
      if |tags| > 0 {
        log.WriteSector();
      }
    }
  }

  /** A small write with `data` bytes, for which `data + spare` bytes are reserved. */
  method AppendSmall(log: RingLog, j: View, tag: nat, size: nat, data: nat, spare: nat) returns (v: Verdict, at: nat)
    requires log.Valid() && Views(j, log) && 0 < size <= j.ring.bs && Aligned(j.ring.bs, data)
    requires InTurn(log.R(), log.t.dist, Put(log.R(), log.Pos(), size).lin)
    modifies log
    ensures log.Valid() && log.start == old(log.start)
    ensures Entries(log.t.ch) == old(Entries(log.t.ch)) + if v.Available? then [Small(tag, data, at)] else []
    ensures v.Available? ==> Spans(log.R(), old(log.t.dist), log.t.dist, at, data)
  {
    hide After, EndsAfter, Opened, BatchSafe, Entries, Good, OpenOk, Spans, NoneEmpty, Passes, Hop;
    ViewsOk(j, log);
    var check := new SpaceCheck(j, log.t.dist);
    ghost var c, moves;
    ghost var r, c0 := log.R(), log.Pos();
    assert PutMany(r, c0, 0, size) == c0 && PutMany(r, c0, 1, size) == Put(r, c0, size);
    v, c, moves := check.CheckAvailable(1, size, data + spare);
    at := 0;
    if v.Available? {
      BatchSafeIff(r, c0, 1, size);
      BatchPlaced(r, c0, 1, size);
      DataFits(r, c, data + spare, c, data);
      at := log.Place(tag, size, true, data, true, 0);
      log.WriteSector();
    }
  }

  lemma PutNone(r: Ring, c: Cursor, size: nat)
    ensures PutMany(r, c, 0, size) == c
  {
  }

  lemma PutOne(r: Ring, c: Cursor, i: nat, n: nat, size: nat)
    requires i < n && PutMany(r, c, n, size).lin < r.Capacity()
    ensures PutMany(r, c, i + 1, size) == Put(r, PutMany(r, c, i, size), size)
    ensures PutMany(r, c, i + 1, size).lin < r.Capacity()
  {
    LinGrows(r, c, i + 1, n, size);
  }
}
