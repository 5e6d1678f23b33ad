/** Runs of the journal in which an operation is told too early, the start passes an open sector, or a restart reads
    a sector of the turn before. */
module JournalRuns {
  import opened Alignment
  import opened Basics
  import opened JournalRing
  import opened JournalLog
  import opened JournalWriter
  import JournalOrder
  import Versions
  import Replayed

  const BS := 4096

  lemma RingOk(n: nat)
    requires 3 <= n <= 5
    ensures Ring(BS, BS * n, BS).Ok()
  {
    assert Aligned(BS, 0) && Aligned(BS, BS) && Aligned(BS, BS * 2) && Aligned(BS, BS * 3);
    assert Aligned(BS, BS * 4) && Aligned(BS, BS * 5);
  }

  /** An entry that fills a sector of its own is appended and its sector is submitted. */
  method WriteOne(log: RingLog, tag: nat) returns (id: nat)
    requires log.Valid() && log.f.bs == BS && !log.dirty && log.joined == 0 && !log.Fits(BS)
    requires log.t.dist + BS < log.R().Capacity()
    modifies log
    ensures log.Valid() && !log.dirty && log.joined == 0 && !log.Fits(BS) && log.start == old(log.start)
    ensures log.t.past == old(log.t.past) && log.trim == old(log.trim) && log.t.dist == old(log.t.dist) + BS
    ensures log.next == Wrap(BS, log.f.len, old(log.next) + BS) && log.t.cut == old(log.t.cut)
    ensures id == log.submitted == old(log.submitted) + 1 && log.flights == old(log.flights)[id := old(log.next)]
    ensures log.t.ch != [] && Front(log.t.ch) == old(log.t.ch) && log.cur == old(log.next)
    ensures Last(log.t.ch).pos == old(log.next) && Last(log.t.ch).es == [Plain(tag)]
    ensures log.t.live == old(log.t.live) + multiset{old(log.next)}
    ensures History(log.t) == old(History(log.t)) + [Plain(tag)]
    ensures log.t.under == Sent(old(log.t.under), id)
                           + [Pending(old(log.next), old(log.next), old(|History(log.t)|), id)]
  {
    hide Good, OpenOk, NoneEmpty, Entries, Between, Spans;
    var sector, at := log.Append(tag, BS, false, 0, true, 0);
    log.WriteSector();
    id := log.joined;
    log.EndBatch();
    assert log.t.under == Sent(old(log.t.under), id) + [Pending(sector, sector, old(|History(log.t)|), id)];
  }

  // ----- chains of sectors with one entry each

  predicate Ones(ch: seq<Sector>) { forall i :: 0 <= i < |ch| ==> |ch[i].es| == 1 }

  lemma {:induction false} OnesEntries(ch: seq<Sector>)
    requires Ones(ch)
    ensures |Entries(ch)| == |ch| && forall i :: 0 <= i < |ch| ==> Entries(ch)[i] == ch[i].es[0]
  {
    if ch != [] { OnesEntries(Front(ch)); }
  }

  lemma OnesNumber(ch: seq<Sector>, n: nat, i: nat)
    requires Ones(ch) && i <= |ch|
    ensures NumberAt(ch, n, i) == n + i
  {
    OnesEntries(ch[..i]);
  }

  // ----- told too early

  const FIRST := JournalOrder.Flight(1, 1, true)
  const SECOND := JournalOrder.Flight(2, 2, true)
  const THIRD := JournalOrder.Flight(3, 3, true)

  lemma LeftOne(f: JournalOrder.Flight, id: nat, first: bool)
    ensures JournalOrder.Left([f], id, first)
         == if JournalOrder.Told(f, id, first) then [] else [JournalOrder.Landed(f, id)]
  {
    var s := [f];
    assert Front(s) == [] && JournalOrder.Left(Front(s), id, first) == [];
  }

  lemma GoneThree(a: JournalOrder.Flight, b: JournalOrder.Flight, c: JournalOrder.Flight, id: nat)
    requires JournalOrder.Told(a, id, true) && !JournalOrder.Told(b, id, true) && JournalOrder.Told(c, id, true)
    ensures JournalOrder.Gone([a, b, c], id, true) == [a, c]
  {
    var three, two, one := [a, b, c], [a, b], [a];
    assert Front(three) == two && Front(two) == one && Front(one) == [];
    assert JournalOrder.Gone(Front(one), id, true) == [];
    assert JournalOrder.Gone(one, id, true) == [a];
    assert JournalOrder.Gone(two, id, true) == [a];
  }

  /** Operations 1, 2 and 3 wait for sector writes 1, 2 and 3. The third is reported, then the first, and the third
      operation is told although the second write is not reported. */
  method Tell() returns (told: seq<JournalOrder.Flight>)
    ensures told == [FIRST, THIRD.(pending := false)]
  {
    hide JournalOrder.Sorted, JournalOrder.Agree, JournalOrder.LowerBound, JournalOrder.Left, JournalOrder.Gone;
    var q := new JournalOrder.FlushQueue();
    q.Await(1, 1);
    q.Await(2, 2);
    q.Await(3, 3);
    ghost var s := q.ops;
    assert s == [FIRST, SECOND, THIRD];
    told := q.HandleWrite(3);
    assert s[0].id == 1 && s[1].id == 2 && s[2].id == 3;
    assert JournalOrder.LowerBound(s, 3) == 2 && s[2..] == [THIRD] && s[..2] == [FIRST, SECOND];
    LeftOne(THIRD, 3, false);
    assert q.ops == [FIRST, SECOND, THIRD.(pending := false)];
    ghost var s' := q.ops;
    told := q.HandleWrite(1);
    assert JournalOrder.LowerBound(s', 1) == 0 && s'[0..] == s';
    GoneThree(FIRST, SECOND, THIRD.(pending := false), 1);
  }

  /** The chain has one entry in each sector, from offset `BS` on with these numbers. */
  ghost predicate Chain(ch: seq<Sector>, tags: seq<nat>) {
    |ch| == |tags| && forall i :: 0 <= i < |ch| ==> ch[i].pos == BS * (i + 1) && ch[i].es == [Plain(tags[i])]
  }

  lemma ChainMore(ch: seq<Sector>, tags: seq<nat>, tag: nat)
    requires ch != [] && Chain(Front(ch), tags) && Last(ch).pos == BS * (|tags| + 1) && Last(ch).es == [Plain(tag)]
    ensures Chain(ch, tags + [tag])
  {
    forall i | 0 <= i < |ch| ensures ch[i].pos == BS * (i + 1) && ch[i].es == [Plain((tags + [tag])[i])] {
      if i < |ch| - 1 { assert ch[i] == Front(ch)[i]; }
    }
  }

  ghost predicate Fresh(log: RingLog)
    reads log
  {
    && log.Valid() && log.f == Conf(BS, BS * 5, false) && log.start == BS && log.trim.Idle? && log.t.past == []
    && !log.dirty && log.joined == 0 && !log.Fits(BS)
  }

  /** All sector writes so far are under way. */
  ghost predicate Flying(log: RingLog, tags: seq<nat>)
    reads log
  {
    && Fresh(log) && Chain(log.t.ch, tags) && |History(log.t)| == |tags| == log.submitted == |log.t.under|
    && log.next == BS * (|tags| + 1) && log.t.dist == BS * |tags| && (tags != [] ==> log.cur == BS * |tags|)
    && (forall i :: 0 <= i < |tags| ==> log.t.under[i] == Pending(BS * (i + 1), BS * (i + 1), i, i + 1))
    && (forall id :: id in log.flights <==> 1 <= id <= |tags|)
    && (forall id :: id in log.flights ==> log.flights[id] == BS * id)
  }

  method FlyOne(log: RingLog, ghost tags: seq<nat>, tag: nat)
    requires Flying(log, tags) && |tags| < 3
    modifies log
    ensures Flying(log, tags + [tag])
  {
    hide Good, OpenOk, NoneEmpty, Chain, Entries;
    var id := WriteOne(log, tag);
    ChainMore(log.t.ch, tags, tag);
  }

  method FlyNone() returns (log: RingLog)
    ensures fresh(log) && Flying(log, [])
  {
    hide Good, OpenOk, NoneEmpty, Chain, Entries;
    RingOk(5);
    log := new RingLog(BS, BS * 5, false);
    assert History(log.t) == [] by { NoEntries(log.t); }
    NoChain(log.t.ch);
  }

  /** Three sector writes are under way. */
  method Three() returns (log: RingLog)
    ensures fresh(log) && Fresh(log) && Chain(log.t.ch, [1, 2, 3])
    ensures log.flights == map[1 := BS, 2 := 2 * BS, 3 := 3 * BS] && log.cur == 3 * BS
    ensures log.t.under == [Pending(BS, BS, 0, 1), Pending(2 * BS, 2 * BS, 1, 2), Pending(3 * BS, 3 * BS, 2, 3)]
  {
    hide Good, OpenOk, NoneEmpty, Chain, Entries, Fresh;
    log := FlyNone();
    FlyOne(log, [], 1);
    assert [] + [1] == [1] && [1] + [2] == [1, 2] && [1, 2] + [3] == [1, 2, 3];
    FlyOne(log, [1], 2);
    FlyOne(log, [1, 2], 3);
  }

  lemma NoEntries(t: Trace)
    requires t.past == [] && t.ch == []
    ensures History(t) == []
  {
  }

  lemma NoChain(ch: seq<Sector>)
    requires ch == []
    ensures Chain(ch, [])
  {
  }

  /** Writes 1 and 3 are reported, and their operations are told. */
  method Reported(log: RingLog)
    requires Fresh(log) && Chain(log.t.ch, [1, 2, 3])
    requires log.flights == map[1 := BS, 2 := 2 * BS, 3 := 3 * BS] && log.cur == 3 * BS
    requires log.t.under == [Pending(BS, BS, 0, 1), Pending(2 * BS, 2 * BS, 1, 2), Pending(3 * BS, 3 * BS, 2, 3)]
    modifies log
    ensures log.Valid() && log.start == BS && log.t.past == [] && Chain(log.t.ch, [1, 2, 3])
    ensures log.t.under == [Pending(2 * BS, 2 * BS, 1, 2)]
  {
    hide Good, OpenOk, NoneEmpty, Chain;
    log.Land(3);
    log.Land(1);
    log.Complete(BS, 0);
    assert log.t.under == [Pending(2 * BS, 2 * BS, 1, 2), Pending(3 * BS, 3 * BS, 2, 3)];
    log.Complete(3 * BS, 1);
  }

  /** The disk after that, when the second write has not come through. */
  const WITHOUT_SECOND := map[BS := Block(0, [Plain(1)]), 3 * BS := Block(2, [Plain(3)])]

  lemma WithoutSecond(ch: seq<Sector>, under: seq<Pending>)
    requires Chain(ch, [1, 2, 3]) && under == [Pending(2 * BS, 2 * BS, 1, 2)]
    ensures Honest(WITHOUT_SECOND, ch, 0) && Lasting(WITHOUT_SECOND, ch, 0, Numbers(under))
    ensures OnlyPieces(WITHOUT_SECOND, Entries(ch)) && Recovered(WITHOUT_SECOND, ch, 0) == [Plain(1)]
  {
    hide Entries, NumberAt;
    var disk := WITHOUT_SECOND;
    OnesEntries(ch);
    assert Entries(ch) == [Plain(1), Plain(2), Plain(3)];
    forall i: nat | i <= 3 ensures NumberAt(ch, 0, i) == i { OnesNumber(ch, 0, i); }
    assert OfSector(ch, 0, BS, disk[BS], 0) && OfSector(ch, 0, 3 * BS, disk[3 * BS], 2);
    assert OnDisk(disk, ch, 0, 0) == [Plain(1)] && OnDisk(disk, ch, 0, 1) == [] && OnDisk(disk, ch, 0, 2) == [Plain(3)];
    assert under[0].nth == 1 && 1 in Numbers(under);
    FirstShortIs(disk, ch, 0, 1);
    OnesEntries(ch[..1]);
    assert Entries(ch[..1]) == [Plain(1)];
  }

  /** The third operation has been told that its entry is written. After a crash replay finds only the first. */
  method ToldEntryLost() returns (told: seq<JournalOrder.Flight>, es: seq<LogEntry>)
    ensures THIRD.(pending := false) in told && es == [Plain(1)]
  {
    hide Good, OpenOk, NoneEmpty, Chain, Honest, Lasting, OnlyPieces, Recovered, FirstShort, Overtaken, FoundAll;
    told := Tell();
    assert told[1] in told;
    var log := Three();
    Reported(log);
    WithoutSecond(log.t.ch, log.t.under);
    assert History(log.t) == Entries(log.t.ch);
    var pos, bug;
    es, pos, bug := log.Restart(WITHOUT_SECOND, false);
  }

  // ----- a sector of the turn before

  /** The journal is empty and at rest. */
  ghost predicate Empty(log: RingLog)
    reads log
  {
    && log.Valid() && log.f == Conf(BS, BS * 4, false) && log.start == log.next && log.trim.Idle? && log.t.ch == []
    && log.t.live == multiset{} && log.t.under == [] && log.t.dist == 0 && log.flights == map[]
    && !log.dirty && log.joined == 0 && !log.Fits(BS)
  }

  /** A write is journaled, completed, released and trimmed. */
  method Pass(log: RingLog, tag: nat)
    requires Empty(log)
    modifies log
    ensures Empty(log) && log.next == Wrap(BS, BS * 4, old(log.next) + BS)
    ensures log.t.past == old(log.t.past) + [Plain(tag)] && log.submitted == old(log.submitted) + 1
  {
    hide Good, OpenOk, NoneEmpty, Entries;
    ghost var past := log.t.past;
    assert History(log.t) == past by { EmptyHistory(log.t); }
    var sector := log.next;
    var id := WriteOne(log, tag);
    assert log.t.under == [Pending(sector, sector, |past|, id)];
    log.Land(id);
    log.Complete(sector, 0);
    Drop(log, sector);
  }

  lemma EmptyHistory(t: Trace)
    requires t.ch == []
    ensures History(t) == t.past
  {
  }

  lemma OneSector(t: Trace)
    requires |t.ch| == 1
    ensures t.past + Entries(t.ch[..1]) == History(t)
  {
    assert t.ch[..1] == t.ch;
  }

  /** The only version in memory goes, and its sector is given up. */
  method Drop(log: RingLog, sector: nat)
    requires log.Valid() && log.f == Conf(BS, BS * 4, false) && log.start != log.next && log.trim.Idle?
    requires |log.t.ch| == 1 && log.t.live == multiset{sector} && log.t.under == [] && log.flights == map[]
    requires !log.dirty && log.joined == 0 && !log.Fits(BS) && BS <= log.inPos
    modifies log
    ensures Empty(log) && log.next == old(log.next) && log.submitted == old(log.submitted)
    ensures log.t.past == old(History(log.t))
  {
    hide Backed, OpenOk, NoneEmpty, Entries, Laid, Flown;
    OneSector(log.t);
    log.Release(sector);
    assert log.t.live == multiset{};
    assert FirstUsed(log.t.live, log.t.ch) == 1;
    log.BeginTrim();
    log.FinishTrim();
  }

  /** A whole turn of the journal. */
  method Turn() returns (log: RingLog)
    ensures fresh(log) && Empty(log) && log.start == BS && log.t.past == [Plain(10), Plain(11), Plain(12)]
    ensures log.submitted == 3
  {
    hide Good, OpenOk, NoneEmpty;
    RingOk(4);
    log := new RingLog(BS, BS * 4, false);
    Pass(log, 10);
    Pass(log, 11);
    Pass(log, 12);
    assert log.t.past == [Plain(10), Plain(11), Plain(12)];
  }

  /** Two more sectors are submitted, and the second write comes through first. */
  method Turned(log: RingLog)
    requires Empty(log) && log.start == BS && log.t.past == [Plain(10), Plain(11), Plain(12)] && log.submitted == 3
    modifies log
    ensures log.Valid() && log.start == BS && log.t.past == [Plain(10), Plain(11), Plain(12)]
    ensures Chain(log.t.ch, [13, 14]) && log.flights == map[4 := BS] && |log.t.under| == 2
    ensures log.t.under[0].nth == 3 && log.t.under[1].nth == 4
  {
    hide Good, OpenOk, NoneEmpty, Chain, Entries;
    assert History(log.t) == log.t.past by { EmptyHistory(log.t); }
    assert Chain(log.t.ch, []) by { NoChain(log.t.ch); }
    var id := WriteOne(log, 13);
    ChainMore(log.t.ch, [], 13);
    id := WriteOne(log, 14);
    assert [] + [13] == [13] && [13] + [14] == [13, 14];
    ChainMore(log.t.ch, [13], 14);
    log.Land(5);
  }

  /** The disk after that: entry 10 is still where 13 should be. */
  const TURN_BEFORE :=
    map[BS := Block(0, [Plain(10)]), 2 * BS := Block(4, [Plain(14)]), 3 * BS := Block(2, [Plain(12)])]

  lemma TurnBefore(t: Trace)
    requires Chain(t.ch, [13, 14]) && t.past == [Plain(10), Plain(11), Plain(12)]
    requires |t.under| == 2 && t.under[0].nth == 3 && t.under[1].nth == 4
    ensures Honest(TURN_BEFORE, t.ch, 3) && Lasting(TURN_BEFORE, t.ch, 3, Numbers(t.under))
    ensures History(t) == [Plain(10), Plain(11), Plain(12), Plain(13), Plain(14)]
    ensures OnlyPieces(TURN_BEFORE, History(t)) && !Continues(TURN_BEFORE, 1)
  {
    hide Entries, NumberAt;
    var disk := TURN_BEFORE;
    OnesEntries(t.ch);
    assert Entries(t.ch) == [Plain(13), Plain(14)];
    forall i: nat | i <= 2 ensures NumberAt(t.ch, 3, i) == 3 + i { OnesNumber(t.ch, 3, i); }
    assert OfSector(t.ch, 3, 2 * BS, disk[2 * BS], 1);
    assert 3 in Numbers(t.under) && 4 in Numbers(t.under);
  }

  /** Replay starts with entry 10 and stops behind it: entry 11, which may undo what entry 10 did, and all that
      followed are missing. */
  method OldEntryAlone() returns (es: seq<LogEntry>)
    ensures es == [Plain(10)]
  {
    hide Good, OpenOk, NoneEmpty, Chain, Honest, Lasting, OnlyPieces, Recovered, FirstShort, Overtaken, FoundAll;
    hide Continues;
    var log := Turn();
    Turned(log);
    TurnBefore(log.t);
    var pos, bug;
    es, pos, bug := log.Restart(TURN_BEFORE, false);
    assert |es| == 1;
  }

  /** If entry 10 creates an object and entry 11 deletes it, the object is back. */
  lemma BackWithoutDelete(d: Versions.Dirty, del: Versions.Dirty)
    requires d.kind == Versions.BigWrite && d.state == Versions.Synced && del.kind == Versions.Delete
    ensures Replayed.ReplayLog([Replayed.JBig(d, true), Replayed.JDelete(del)], None) == []
    ensures Replayed.ReplayLog([Replayed.JBig(d, true)], None) == [d.(state := Versions.Stable)]
  {
    var one, two := [Replayed.JBig(d, true)], [Replayed.JBig(d, true), Replayed.JDelete(del)];
    assert one[..0] == [] && two[..1] == one;
    assert Replayed.Emplace([], d) == [d];
    var x := [d];
    assert x[0 := Replayed.Marked(x[0])] == [d.(state := Versions.Stable)];
    assert Replayed.Walk(x, 0) == [d.(state := Versions.Stable)];
  }

  // ----- the start passes an open sector

  /** A version is journaled in the first sector. */
  method Journaled() returns (log: RingLog)
    ensures fresh(log) && log.Valid() && log.f == Conf(BS, BS * 5, false) && log.trim.Idle? && log.start == BS
    ensures log.t.live == multiset{BS} && log.next == 2 * BS && log.t.dist == BS && log.inPos == BS
    ensures !log.dirty && log.joined == 0 && log.flights == map[] && log.submitted == 1 && log.t.under == []
  {
    hide Good, OpenOk, NoneEmpty;
    RingOk(5);
    log := new RingLog(BS, BS * 5, false);
    var id := WriteOne(log, 1);
    log.Land(1);
    log.Complete(BS, 0);
  }

  /** A stabilization of this version is appended to the current sector, or to a new one, and submitted. */
  method StableEntry(log: RingLog, tag: nat)
    requires log.Valid() && log.f == Conf(BS, BS * 5, false) && !log.dirty && log.joined == 0
    requires BS in log.t.live && log.t.dist <= 2 * BS && log.start == BS
    modifies log
    ensures log.Valid() && !log.dirty && log.joined == 0 && log.trim == old(log.trim) && log.start == BS
    ensures log.t.live == old(log.t.live) && log.submitted == old(log.submitted) + 1
    ensures log.Pos() == Put(log.R(), old(log.Pos()), 40)
    ensures log.cur == (if old(log.Fits(40)) then old(log.cur) else old(log.next))
    ensures log.flights == old(log.flights)[log.submitted := log.cur]
    ensures |log.t.under| == old(|log.t.under|) + 1
    ensures Last(log.t.under).sector == log.cur && Last(log.t.under).write == log.submitted
    ensures Front(log.t.under) == Sent(old(log.t.under), log.submitted)
  {
    hide Good, OpenOk, NoneEmpty, Entries, Between, Spans;
    var sector, at := log.Append(tag, 40, false, 0, false, BS);
    log.WriteSector();
    log.EndBatch();
  }

  /** Two stabilizations are in the second sector, the first of them is told. */
  method TwoStable() returns (log: RingLog)
    ensures fresh(log) && log.Valid() && log.f == Conf(BS, BS * 5, false) && log.trim.Idle? && log.start == BS
    ensures log.t.live == multiset{BS} && log.cur == 2 * BS && log.next == 3 * BS && log.inPos == 80
  {
    hide Good, OpenOk, NoneEmpty;
    log := Journaled();
    StableEntry(log, 2);
    StableEntry(log, 3);
    log.Land(2);
    assert 3 in log.flights.Keys && log.flights[3] == log.cur && log.cur in log.flights.Values;
    log.Complete(2 * BS, 0);
  }

  /** A version is journaled in the first sector. Two operations stabilize it, with entries in the second one. The first
      is told, the version is flushed and its reference released while the second is under way. The start then moves
      past the second sector, which still takes entries: the next one is outside the live part. */
  method OpenSectorTrimmed() returns (log: RingLog)
    ensures fresh(log) && log.Sound() && log.Fits(40) && !Between(log.start, log.next, log.cur)
  {
    hide Backed, OpenOk, NoneEmpty, Entries, Laid, Flown;
    log := TwoStable();
    log.Release(BS);
    assert log.t.live == multiset{};
    assert FirstUsed(log.t.live, log.t.ch) == |log.t.ch|;
    log.BeginTrim();
    log.FinishTrim();
  }
}
