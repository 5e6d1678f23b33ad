/** The journal as one object: entries are added to the current sector, sectors are written and reported as
    written, versions in memory hold references, and the start of the live part moves forward. */
module JournalWriter {
  import opened Alignment
  import opened Basics
  import opened JournalRing
  import opened JournalLog

  /** A trim writes the new start to the disk first and takes effect when that is done. */
  datatype TrimState = Idle | Trimming(to: nat)

  // ----- the state of the journal and its steps

  /** The fields of the journal: the start of the live part, the next free position; the current sector, its
      fill, whether it was written before, whether it has entries that are not submitted, and the number of its
      write in the current batch of submissions or zero; the number of the last sector write and those that are
      not reported yet with their sectors; the reference counts and the trim. */
  datatype State = State(start: nat, next: nat, cur: nat, inPos: nat, written: bool, dirty: bool, joined: nat,
                         submitted: nat, flights: map<nat, nat>, used: map<nat, nat>, trim: TrimState)

  /** Entry number `nth`, in `sector`, whose operation does not know yet that it is written. It waits for sector
      write number `write`, or is not submitted if that is zero. It depends on a version in memory that is
      referenced in `holder`: a write on its own one, a stabilization or rollback on the version that it is about. */
  datatype Pending = Pending(sector: nat, holder: nat, nth: nat, write: nat)

  /** What is in the ring: the chain, the distance from where the journal once began to the start
      and from there to the next free position, the entries that were given up, the header sectors of all journaled
      versions that are in memory, the entries under way, and the number of sectors that the pending trim drops. */
  datatype Trace = Trace(ch: seq<Sector>, base: nat, dist: nat, past: seq<LogEntry>, live: multiset<nat>,
                         under: seq<Pending>, cut: nat)

  /** Everything that was ever journaled. */
  function History(t: Trace): seq<LogEntry> { t.past + Entries(t.ch) }

  datatype Conf = Conf(bs: nat, len: nat, noOverwrite: bool)

  function RingOf(f: Conf, s: State): Ring { Ring(f.bs, f.len, s.start) }

  function Here(f: Conf, s: State, t: Trace): Cursor { Cursor(s.next, t.dist, s.inPos, f.noOverwrite && s.written) }

  /** Nothing before the start that is being written is referenced. */
  ghost predicate TrimOk(s: State, t: Trace) {
    s.trim.Trimming? ==>
      t.cut <= |t.ch| && s.trim.to == StartOf(t.ch, s.next, t.cut) && Unreferenced(t.live, t.ch, t.cut)
  }

  /** The numbers of the entries under way. */
  function Numbers(under: seq<Pending>): set<nat> { set k | 0 <= k < |under| :: under[k].nth }

  ghost predicate HasUnder(under: seq<Pending>, sector: nat) {
    exists k :: 0 <= k < |under| && under[k].sector == sector
  }

  predicate Awaits(p: Pending, id: nat, sector: nat) { p.write == id && p.sector == sector }

  ghost predicate Awaited(under: seq<Pending>, id: nat, sector: nat) {
    exists k :: 0 <= k < |under| && Awaits(under[k], id, sector)
  }

  /** Only the current sector has entries that are not submitted, and every sector write is waited for. */
  ghost predicate Flown(s: State, under: seq<Pending>) {
    && (s.dirty ==> Awaited(under, 0, s.cur))
    && (forall k :: 0 <= k < |under| ==>
          under[k].write <= s.submitted && (under[k].write == 0 ==> s.dirty && under[k].sector == s.cur))
    && (forall id :: id in s.flights ==> 0 < id <= s.submitted && Awaited(under, id, s.flights[id]))
    && (s.joined != 0 ==> s.joined in s.flights && s.flights[s.joined] == s.cur)
  }

  /** A sector that still takes entries is the last one, and some entry of it is under way. */
  ghost predicate OpenOk(f: Conf, s: State, t: Trace) {
    s.inPos < f.bs ==> t.ch != [] && Last(t.ch).pos == s.cur && HasUnder(t.under, s.cur)
  }

  /** Sector `h` is in the chain, not after sector `s`. */
  ghost predicate NotAfter(ch: seq<Sector>, h: nat, s: nat) {
    exists i, j :: 0 <= i <= j < |ch| && ch[i].pos == h && ch[j].pos == s
  }

  /** What the entries under way depend on is referenced, in the same sector or before. */
  ghost predicate Backed(live: multiset<nat>, ch: seq<Sector>, under: seq<Pending>) {
    forall k :: 0 <= k < |under| ==> under[k].holder in live && NotAfter(ch, under[k].holder, under[k].sector)
  }

  /** The ring is in order, and so are the references and the trim. */
  ghost predicate Laid(f: Conf, s: State, t: Trace) {
    Shaped(RingOf(f, s), Here(f, s, t), t.base, t.ch) && Refs(s.used, t.live, t.ch) && TrimOk(s, t)
  }

  ghost predicate Good(f: Conf, s: State, t: Trace) {
    Laid(f, s, t) && Backed(t.live, t.ch, t.under) && Flown(s, t.under)
  }

  predicate EntryFits(f: Conf, s: State, size: nat) { !(f.bs < s.inPos + size || (f.noOverwrite && s.written)) }

  /** Moves to a new header sector at the next free position. */
  function NewSectorState(f: Conf, s: State): State {
    s.(written := false, cur := s.next, inPos := 0, joined := 0, next := Wrap(f.bs, f.len, s.next + f.bs))
  }

  function OpenedTrace(f: Conf, s: State, t: Trace): Trace {
    t.(ch := t.ch + [Sector(s.next, t.base + t.dist, [])], dist := t.dist + f.bs)
  }

  lemma RefsMore(used: map<nat, nat>, live: multiset<nat>, ch: seq<Sector>, c: Sector)
    requires Refs(used, live, ch)
    ensures Refs(used, live, ch + [c])
  {
    forall s | s in live ensures HasSector(ch + [c], s) {
      var i :| 0 <= i < |ch| && ch[i].pos == s;
      assert (ch + [c])[i].pos == s;
    }
  }

  lemma OpenedShaped(f: Conf, s: State, t: Trace)
    requires Shaped(RingOf(f, s), Here(f, s, t), t.base, t.ch) && t.dist + f.bs < RingOf(f, s).Capacity()
    ensures var s', t' := NewSectorState(f, s), OpenedTrace(f, s, t);
            Shaped(RingOf(f, s'), Here(f, s', t'), t'.base, t'.ch) && NotCrossing(RingOf(f, s), s.next, s'.next)
  {
    hide Linked, InOrder;
    SectorShaped(RingOf(f, s), Here(f, s, t), t.base, t.ch);
  }

  lemma OpenedGood(f: Conf, s: State, t: Trace)
    requires Good(f, s, t) && t.dist + f.bs < RingOf(f, s).Capacity() && !s.dirty
    ensures Good(f, NewSectorState(f, s), OpenedTrace(f, s, t))
    ensures NotCrossing(RingOf(f, s), s.next, NewSectorState(f, s).next)
  {
    hide Shaped, Awaited;
    OpenedShaped(f, s, t);
    RefsMore(s.used, t.live, t.ch, Sector(s.next, t.base + t.dist, []));
    BackedMore(t.live, t.ch, t.under, Sector(s.next, t.base + t.dist, []));
  }

  lemma BackedMore(live: multiset<nat>, ch: seq<Sector>, under: seq<Pending>, c: Sector)
    requires Backed(live, ch, under)
    ensures Backed(live, ch + [c], under)
  {
    forall k | 0 <= k < |under| ensures NotAfter(ch + [c], under[k].holder, under[k].sector) {
      var i, j :| 0 <= i <= j < |ch| && ch[i].pos == under[k].holder && ch[j].pos == under[k].sector;
      assert (ch + [c])[i].pos == under[k].holder && (ch + [c])[j].pos == under[k].sector;
    }
  }

  /** Adds an entry to the current sector. A reference to it is counted for a version in memory. */
  function Added(f: Conf, s: State, e: LogEntry, size: nat, ref: bool): State {
    s.(inPos := s.inPos + size, dirty := true,
       used := if ref then s.used[s.cur := (if s.cur in s.used then s.used[s.cur] else 0) + 1] else s.used,
       next := if e.Small? then DataEnd(f.bs, f.len, s.next, e.len) else s.next)
  }

  function AddedPending(s: State, t: Trace, ref: bool, holder: nat): Pending {
    Pending(s.cur, if ref then s.cur else holder, |History(t)|, 0)
  }

  function AddedTrace(f: Conf, s: State, t: Trace, e: LogEntry, ref: bool, holder: nat): Trace
    requires t.ch != []
  {
    t.(ch := WithEntry(t.ch, e),
       dist := if e.Small? then Data(RingOf(f, s), Here(f, s, t), e.len).lin else t.dist,
       live := if ref then t.live + multiset{s.cur} else t.live,
       under := t.under + [AddedPending(s, t, ref, holder)])
  }

  lemma AwaitedMore(under: seq<Pending>, p: Pending, id: nat, sector: nat)
    requires Awaited(under, id, sector) || Awaits(p, id, sector)
    ensures Awaited(under + [p], id, sector)
  {
    var more := under + [p];
    if Awaited(under, id, sector) {
      var k :| 0 <= k < |under| && Awaits(under[k], id, sector);
      assert Awaits(more[k], id, sector);
    } else {
      assert Awaits(more[|under|], id, sector);
    }
  }

  lemma AddedFlown(f: Conf, s: State, t: Trace, e: LogEntry, size: nat, ref: bool, holder: nat)
    requires t.ch != [] && Flown(s, t.under)
    ensures Flown(Added(f, s, e, size, ref), AddedTrace(f, s, t, e, ref, holder).under)
    ensures HasUnder(AddedTrace(f, s, t, e, ref, holder).under, s.cur)
  {
    hide Awaited;
    var p := AddedPending(s, t, ref, holder);
    AwaitedMore(t.under, p, 0, s.cur);
    forall id | id in s.flights ensures Awaited(t.under + [p], id, s.flights[id]) {
      AwaitedMore(t.under, p, id, s.flights[id]);
    }
    assert (t.under + [p])[|t.under|].sector == s.cur;
  }

  lemma SameSectors(ch: seq<Sector>, e: LogEntry, p: nat)
    requires ch != []
    ensures |WithEntry(ch, e)| == |ch| && forall i :: 0 <= i < |ch| ==> WithEntry(ch, e)[i].pos == ch[i].pos
    ensures HasSector(ch, p) ==> HasSector(WithEntry(ch, e), p)
  {
    if HasSector(ch, p) {
      var i :| 0 <= i < |ch| && ch[i].pos == p;
      assert WithEntry(ch, e)[i].pos == p;
    }
  }

  lemma AddedRefs(f: Conf, s: State, t: Trace, e: LogEntry, size: nat, ref: bool, holder: nat)
    requires t.ch != [] && Refs(s.used, t.live, t.ch) && Last(t.ch).pos == s.cur
    ensures Refs(Added(f, s, e, size, ref).used, AddedTrace(f, s, t, e, ref, holder).live, WithEntry(t.ch, e))
  {
    hide Refs;
    if ref { OneRef(s.used, t.live, t.ch, s.cur); }
    SameRefs(Added(f, s, e, size, ref).used, AddedTrace(f, s, t, e, ref, holder).live, t.ch, e);
  }

  lemma OneRef(used: map<nat, nat>, live: multiset<nat>, ch: seq<Sector>, cur: nat)
    requires ch != [] && Refs(used, live, ch) && Last(ch).pos == cur
    ensures Refs(used[cur := (if cur in used then used[cur] else 0) + 1], live + multiset{cur}, ch)
  {
    assert HasSector(ch, cur) by { assert ch[|ch| - 1].pos == cur; }
    hide HasSector;
  }

  lemma SameRefs(used: map<nat, nat>, live: multiset<nat>, ch: seq<Sector>, e: LogEntry)
    requires ch != [] && Refs(used, live, ch)
    ensures Refs(used, live, WithEntry(ch, e))
  {
    hide HasSector, WithEntry;
    forall p | p in live ensures HasSector(WithEntry(ch, e), p) { SameSectors(ch, e, p); }
  }

  lemma AddedShaped(f: Conf, s: State, t: Trace, e: LogEntry, size: nat, ref: bool, holder: nat)
    requires Good(f, s, t) && t.ch != [] && s.inPos + size <= f.bs
    requires e.Small? ==>
               && Aligned(f.bs, e.len) && Data(RingOf(f, s), Here(f, s, t), e.len).lin < RingOf(f, s).Capacity()
               && e.at == DataAt(f.bs, f.len, s.next, e.len)
    ensures var s', t' := Added(f, s, e, size, ref), AddedTrace(f, s, t, e, ref, holder);
            Shaped(RingOf(f, s'), Here(f, s', t'), t'.base, t'.ch)
  {
    hide Linked, InOrder;
    if e.Small? {
      SmallShaped(RingOf(f, s), Here(f, s, t), t.base, t.ch, e, s.inPos + size);
    } else {
      PlainShaped(RingOf(f, s), Here(f, s, t), t.base, t.ch, e, s.inPos + size);
    }
  }

  lemma AddedGood(f: Conf, s: State, t: Trace, e: LogEntry, size: nat, ref: bool, holder: nat)
    requires Good(f, s, t) && t.ch != [] && Last(t.ch).pos == s.cur && s.inPos + size <= f.bs
    requires ref || holder in t.live
    requires s.trim.Trimming? ==> t.cut < |t.ch|
    requires e.Small? ==>
               && Aligned(f.bs, e.len) && Data(RingOf(f, s), Here(f, s, t), e.len).lin < RingOf(f, s).Capacity()
               && e.at == DataAt(f.bs, f.len, s.next, e.len)
    ensures var s', t' := Added(f, s, e, size, ref), AddedTrace(f, s, t, e, ref, holder);
            Good(f, s', t') && OpenOk(f, s', t')
  {
    hide Shaped, Refs, Backed, TrimOk, Flown, HasUnder;
    AddedShaped(f, s, t, e, size, ref, holder);
    AddedRefs(f, s, t, e, size, ref, holder);
    SameSectors(t.ch, e, 0);
    AddedTrim(f, s, t, e, size, ref, holder);
    AddedBacked(f, s, t, e, ref, holder);
    AddedFlown(f, s, t, e, size, ref, holder);
  }

  lemma SameOrder(ch: seq<Sector>, e: LogEntry, h: nat, s: nat)
    requires ch != [] && NotAfter(ch, h, s)
    ensures NotAfter(WithEntry(ch, e), h, s)
  {
    SameSectors(ch, e, 0);
    var i, j :| 0 <= i <= j < |ch| && ch[i].pos == h && ch[j].pos == s;
    assert WithEntry(ch, e)[i].pos == h && WithEntry(ch, e)[j].pos == s;
  }

  lemma AddedBacked(f: Conf, s: State, t: Trace, e: LogEntry, ref: bool, holder: nat)
    requires t.ch != [] && Last(t.ch).pos == s.cur && Refs(s.used, t.live, t.ch) && Backed(t.live, t.ch, t.under)
    requires ref || holder in t.live
    ensures var t' := AddedTrace(f, s, t, e, ref, holder); Backed(t'.live, t'.ch, t'.under)
  {
    var t' := AddedTrace(f, s, t, e, ref, holder);
    forall k | 0 <= k < |t'.under|
      ensures t'.under[k].holder in t'.live && NotAfter(t'.ch, t'.under[k].holder, t'.under[k].sector)
    {
      if k == |t.under| {
        var n: nat := |t.ch| - 1;
        if ref {
          assert t.ch[n].pos == s.cur && t.ch[n].pos == s.cur;
          assert NotAfter(t.ch, s.cur, s.cur);
        } else {
          var i :| 0 <= i < |t.ch| && t.ch[i].pos == holder;
          assert t.ch[i].pos == holder && t.ch[n].pos == s.cur;
          assert NotAfter(t.ch, holder, s.cur);
        }
      }
      SameOrder(t.ch, e, t'.under[k].holder, t'.under[k].sector);
    }
  }

  /** What the writer asserts about the entry that it adds. */
  lemma AddedFacts(f: Conf, s: State, t: Trace, e: LogEntry, size: nat, ref: bool, holder: nat)
    requires Good(f, s, t) && t.ch != [] && Last(t.ch).pos == s.cur && s.inPos + size <= f.bs
    requires ref || holder in t.live
    requires s.trim.Trimming? ==> t.cut < |t.ch|
    requires e.Small? ==>
               && Aligned(f.bs, e.len) && Data(RingOf(f, s), Here(f, s, t), e.len).lin < RingOf(f, s).Capacity()
               && e.at == DataAt(f.bs, f.len, s.next, e.len)
    ensures var s', t' := Added(f, s, e, size, ref), AddedTrace(f, s, t, e, ref, holder);
            && Good(f, s', t') && OpenOk(f, s', t') && Between(s.start, s'.next, s.cur)
            && (e.Small? ==>
                  && Spans(RingOf(f, s), t.dist, t'.dist, e.at, e.len)
                  && NotCrossing(RingOf(f, s), s.next, e.at) && NotCrossing(RingOf(f, s), e.at, s'.next))
  {
    hide Linked, InOrder, Refs, Backed, Flown;
    AddedGood(f, s, t, e, size, ref, holder);
    SameSectors(t.ch, e, 0);
    var s', t' := Added(f, s, e, size, ref), AddedTrace(f, s, t, e, ref, holder);
    SectorBetween(RingOf(f, s'), Here(f, s', t'), t'.base, t'.ch, |t'.ch| - 1);
    if e.Small? {
      DataSpans(RingOf(f, s), Here(f, s, t), e.len);
      DataNotCrossing(RingOf(f, s), Here(f, s, t), e.len);
    }
  }

  /** The data follows its header, from the front of the ring if it does not fit before the end, and the next free
      position follows both. A header takes a new sector at the next free position if it does not fit. */
  predicate Follows(f: Conf, next: nat, fits: bool, small: bool, data: nat, at: nat, next': nat) {
    var free := if fits then next else if next + f.bs < f.len then next + f.bs else f.bs;
    && (small ==> at == if free + data <= f.len then free else f.bs)
    && next' == if !small then free else if at + data < f.len then at + data else f.bs
  }

  lemma FollowsNext(f: Conf, next: nat, fits: bool, small: bool, data: nat)
    ensures var free := if fits then next else Wrap(f.bs, f.len, next + f.bs);
            Follows(f, next, fits, small, data, DataAt(f.bs, f.len, free, data),
                    if small then DataEnd(f.bs, f.len, free, data) else free)
  {
  }

  lemma SpansFrom(r: Ring, lo: int, mid: int, hi: int, pos: nat, n: nat)
    requires n > 0 ==> Spans(r, mid, hi, pos, n) && lo <= mid
    ensures Spans(r, lo, hi, pos, n)
  {
  }

  lemma AddedTrim(f: Conf, s: State, t: Trace, e: LogEntry, size: nat, ref: bool, holder: nat)
    requires Good(f, s, t) && t.ch != [] && Last(t.ch).pos == s.cur
    requires s.trim.Trimming? ==> t.cut < |t.ch|
    ensures TrimOk(Added(f, s, e, size, ref), AddedTrace(f, s, t, e, ref, holder))
  {
    hide Refs, Flown, Backed, Linked, InOrder;
    SameSectors(t.ch, e, 0);
    forall i | 0 <= i < t.cut < |t.ch| ensures t.ch[i].pos != s.cur {
      Apart(RingOf(f, s), t.base, t.ch, s.start, s.next, t.base + t.dist, i, |t.ch| - 1);
    }
  }

  /** A sector that takes entries is never before a start that is being written. */
  lemma OpenAfterCut(f: Conf, s: State, t: Trace)
    requires Good(f, s, t) && OpenOk(f, s, t) && s.inPos < f.bs && s.trim.Trimming?
    ensures t.ch != [] && t.cut < |t.ch|
  {
    hide Shaped, Flown;
    var k :| 0 <= k < |t.under| && t.under[k].sector == s.cur;
    var i, j :| 0 <= i <= j < |t.ch| && t.ch[i].pos == t.under[k].holder && t.ch[j].pos == t.under[k].sector;
    assert t.ch[i].pos in t.live;
  }

  lemma {:induction false} EntriesMore(ch: seq<Sector>, c: Sector, e: LogEntry)
    ensures c.es == [] ==> Entries(ch + [c]) == Entries(ch)
    ensures ch != [] ==> Entries(WithEntry(ch, e)) == Entries(ch) + [e]
  {
    assert Front(ch + [c]) == ch;
    if ch != [] {
      assert Front(WithEntry(ch, e)) == Front(ch);
      assert Entries(Front(ch)) + (Last(ch).es + [e]) == (Entries(Front(ch)) + Last(ch).es) + [e];
    }
  }

  class RingLog {
    const f: Conf
    var start: nat
    var next: nat
    var cur: nat
    var inPos: nat
    var written: bool
    var dirty: bool
    var joined: nat
    var submitted: nat
    var flights: map<nat, nat>
    var used: map<nat, nat>
    var trim: TrimState
    ghost var t: Trace

    function S(): State
      reads this
    {
      State(start, next, cur, inPos, written, dirty, joined, submitted, flights, used, trim)
    }

    ghost function R(): Ring
      reads this
    {
      RingOf(f, S())
    }

    ghost function Pos(): Cursor
      reads this
    {
      Here(f, S(), t)
    }

    /** The ring, the references and the trim are in order. */
    ghost predicate Sound()
      reads this
    {
      Laid(f, S(), t) && Flown(S(), t.under) && NoneEmpty(t.ch)
    }

    /** Moreover, what is under way cannot be trimmed. */
    ghost predicate Valid()
      reads this
    {
      Good(f, S(), t) && OpenOk(f, S(), t) && NoneEmpty(t.ch)
    }

    constructor (bs: nat, len: nat, noOverwrite: bool)
      requires Ring(bs, len, bs).Ok()
      ensures Valid() && t == Trace([], 0, 0, [], multiset{}, [], 0) && trim == Idle && next == bs && start == bs
      ensures f == Conf(bs, len, noOverwrite) && inPos == bs && !dirty && flights == map[] && joined == submitted == 0
      ensures !written
    {
      f := Conf(bs, len, noOverwrite);
      start, next, cur, inPos, written, dirty, used, trim := bs, bs, 0, bs, false, false, map[], Idle;
      joined, submitted, flights := 0, 0, map[];
      t := Trace([], 0, 0, [], multiset{}, [], 0);
    }

    predicate Fits(size: nat)
      reads this
    {
      EntryFits(f, S(), size)
    }

    /** Moves to a new sector when the current one has no room. The assertions that the current one is
        submitted and that the next free position does not cross the start hold. */
    method MakeRoom(size: nat)
      requires Valid() && 0 < size <= f.bs && Put(R(), Pos(), size).lin < R().Capacity() && (Fits(size) || !dirty)
      modifies this`written, this`cur, this`inPos, this`joined, this`next, this`t
      ensures Good(f, S(), t) && t.ch != [] && Last(t.ch).pos == cur && inPos + size <= f.bs && NoneEmpty(Front(t.ch))
      ensures trim.Trimming? ==> t.cut < |t.ch|
      ensures Pos().(inPos := inPos + size) == Put(R(), old(Pos()), size)
      ensures t == old(t).(ch := t.ch, dist := t.dist) && t.dist >= old(t.dist)
      ensures Entries(t.ch) == old(Entries(t.ch))
      ensures old(Fits(size)) ==> S() == old(S()) && t == old(t)
      ensures !old(Fits(size)) ==> S() == NewSectorState(f, old(S())) && t == OpenedTrace(f, old(S()), old(t))
    {
      hide Shaped, Refs, Entries, Unreferenced, Flown, Backed, HasUnder;
      if !EntryFits(f, S(), size) {
        OpenedGood(f, S(), t);
        EntriesMore(t.ch, Sector(next, t.base + t.dist, []), Plain(0));
        OpenSector();
      } else if trim.Trimming? {
        OpenAfterCut(f, S(), t);
      }
    }

    /** The new sector is at the next free position. */
    method OpenSector()
      requires NotCrossing(R(), next, Wrap(f.bs, f.len, next + f.bs))
      modifies this`written, this`cur, this`inPos, this`joined, this`next, this`t
      ensures S() == NewSectorState(f, old(S())) && t == OpenedTrace(f, old(S()), old(t))
    {
      t := OpenedTrace(f, S(), t);
      written := false;
      joined := 0;
      cur := next;
      inPos := 0;
      var nextNext := if next + f.bs < f.len then next + f.bs else f.bs;
      assert NotCrossing(R(), next, nextNext);
      next := nextNext;
    }

    /** Appends an entry of `size` bytes and the `data` bytes of a small write. The caller has
        reserved the space, and has submitted the current sector if the entry does not fit there. An entry without a
        reference of its own is about a version that is referenced in `holder`. The entry becomes the last one; its
        data was not live before, none of the writer's assertions fails, and the header is inside the live part. */
    method Append(tag: nat, size: nat, small: bool, data: nat, ref: bool, holder: nat) returns (sector: nat, at: nat)
      requires Valid() && 0 < size <= f.bs && Aligned(f.bs, data) && (ref || holder in t.live) && (Fits(size) || !dirty)
      requires Put(R(), Pos(), size).lin < R().Capacity()
      requires Data(R(), Put(R(), Pos(), size), data).lin < R().Capacity()
      modifies this
      ensures Valid() && start == old(start) && t.base == old(t.base) && t.past == old(t.past) && dirty
      ensures submitted == old(submitted) && flights == old(flights) && trim == old(trim) && t.cut == old(t.cut)
      ensures sector == cur == (if old(Fits(size)) then old(cur) else old(next))
      ensures old(Fits(size)) <==> old(inPos) + size <= f.bs && !(f.noOverwrite && old(written))
      ensures joined == (if old(Fits(size)) then old(joined) else 0)
      ensures Entries(t.ch) == old(Entries(t.ch)) + [if small then Small(tag, data, at) else Plain(tag)]
      ensures !old(Fits(size)) ==> t.ch != [] && Front(t.ch) == old(t.ch) && Last(t.ch).pos == sector
                                   && Last(t.ch).es == [if small then Small(tag, data, at) else Plain(tag)]
      ensures t.live == old(t.live) + if ref then multiset{sector} else multiset{}
      ensures t.under == old(t.under) + [Pending(sector, if ref then sector else holder,
                                                 old(|History(t)|), 0)]
      ensures Pos() == (var c := Put(R(), old(Pos()), size); if small then Data(R(), c, data) else c)
      ensures Follows(f, old(next), old(Fits(size)), small, data, at, next)
      ensures Between(start, next, sector) && (small ==> Spans(R(), old(t.dist), t.dist, at, data))
    {
      hide Good, OpenOk, Entries, Spans, Between, NotCrossing, Put, AddedTrace, Follows, NoneEmpty, Wrap;
      FollowsNext(f, next, Fits(size), small, data);
      MakeRoom(size);
      sector := cur;
      at := DataAt(f.bs, f.len, next, data);
      var e := if small then Small(tag, data, at) else Plain(tag);
      AddedFacts(f, S(), t, e, size, ref, holder);
      EntriesMore(t.ch, Sector(0, 0, []), e);
      assert small ==> NotCrossing(R(), next, at) && NotCrossing(R(), at, DataEnd(f.bs, f.len, next, data));
      SpansFrom(R(), old(t.dist), t.dist, AddedTrace(f, S(), t, e, ref, holder).dist, at, if small then data else 0);
      AddedIs(f, S(), t, e, ref, holder);
      FilledMore(t.ch, e);
      if !old(Fits(size)) { OneMore(old(t.ch), Last(t.ch), e); }
      Push(e, size, ref, holder);
    }

    /** The step of a batch: submits the current sector if the entry does not fit there, and appends it. */
    method Place(tag: nat, size: nat, small: bool, data: nat, ref: bool, holder: nat) returns (at: nat)
      requires Valid() && 0 < size <= f.bs && Aligned(f.bs, data) && (ref || holder in t.live)
      requires Put(R(), Pos(), size).lin < R().Capacity()
      requires Data(R(), Put(R(), Pos(), size), data).lin < R().Capacity()
      modifies this
      ensures Valid() && R() == old(R()) && dirty && |t.under| == old(|t.under|) + 1
      ensures Entries(t.ch) == old(Entries(t.ch)) + [if small then Small(tag, data, at) else Plain(tag)]
      ensures t.live == old(t.live) + if ref then multiset{cur} else multiset{}
      ensures Pos() == (var c := Put(R(), old(Pos()), size); if small then Data(R(), c, data) else c)
      ensures small ==> Spans(R(), old(t.dist), t.dist, at, data)
    {
      hide Good, OpenOk, Entries, Spans, Between, Data, NoneEmpty;
      if !Fits(size) && dirty {
        WriteSector();
      }
      var sector;
      sector, at := Append(tag, size, small, data, ref, holder);
    }

    /** Fills in the entry and counts its reference. */
    method Push(e: LogEntry, size: nat, ref: bool, holder: nat)
      requires t.ch != [] && (e.Small? ==> e.at == DataAt(f.bs, f.len, next, e.len))
      modifies this`t, this`next, this`inPos, this`dirty, this`used
      ensures S() == Added(f, old(S()), e, size, ref) && t == AddedTrace(f, old(S()), old(t), e, ref, holder)
    {
      t := AddedTrace(f, S(), t, e, ref, holder);
      if e.Small? {
        next := if e.at + e.len >= f.len then f.bs else e.at + e.len;
      }
      inPos := inPos + size;
      dirty := true;
      used := if ref then used[cur := (if cur in used then used[cur] else 0) + 1] else used;
    }

    /** The write of the current sector is submitted, unless it already is in the same batch. Its new entries wait
        for it. In a journal without overwrites the sector takes no more entries. */
    method WriteSector()
      requires Valid() && dirty
      modifies this`written, this`dirty, this`joined, this`submitted, this`flights, this`t
      ensures Valid() && written && !dirty && joined != 0
      ensures t == old(t).(under := Sent(old(t.under), joined))
      ensures if old(joined) != 0 then joined == old(joined) && submitted == old(submitted) && flights == old(flights)
              else joined == submitted == old(submitted) + 1 && flights == old(flights)[submitted := cur]
    {
      hide Good, OpenOk;
      SubmittedGood(f, S(), t);
      ghost var s' := Submitted(S());
      written := true;
      if joined == 0 {
        submitted := submitted + 1;
        joined := submitted;
        flights := flights[submitted := cur];
      }
      t := t.(under := Sent(t.under, joined));
      dirty := false;
      assert S() == s';
    }

    /** The batch is handed over to the kernel. */
    method EndBatch()
      requires Valid()
      modifies this`joined
      ensures Valid() && joined == 0
    {
      hide Good, OpenOk;
      LandedGood(f, S(), t, submitted + 1);
      joined := 0;
    }

    /** A sector write is reported by the disk. */
    method Land(id: nat)
      requires Valid() && id in flights && id != joined
      modifies this`flights
      ensures Valid() && flights == old(flights) - {id}
    {
      hide Good, OpenOk;
      LandedGood(f, S(), t, id);
      flights := flights - {id};
    }

    /** An operation is told that its entry in `sector`, number `k` of those under way, is written. When no entry
        and no write of the current sector is outstanding, that takes no more entries. */
    method Complete(sector: nat, ghost k: nat)
      requires Valid() && k < |t.under| && t.under[k].sector == sector
      requires t.under[k].write != 0 && t.under[k].write !in flights
      modifies this`inPos, this`t
      ensures Valid() && t == old(t).(under := old(t.under)[..k] + old(t.under)[k + 1..])
      ensures inPos == if sector == cur && !dirty && cur !in flights.Values then f.bs else old(inPos)
    {
      hide Laid, Good, OpenOk;
      CompletedGood(f, S(), t, k);
      t := t.(under := t.under[..k] + t.under[k + 1..]);
      if sector == cur && !dirty && cur !in flights.Values {
        inPos := f.bs;
      }
    }

    /** A version in memory that was journaled in `sector` is gone. A sector without references takes no more
        entries, so that the start may move past it. This is safe if and only if no entry under way depends on the
        last reference of the sector. */
    method Release(sector: nat)
      requires Sound() && sector in t.live
      modifies this`used, this`inPos, this`t
      ensures Sound() && t == old(t).(live := old(t.live) - multiset{sector})
      ensures inPos == if sector == cur && sector !in t.live then f.bs else old(inPos)
      ensures old(Valid()) ==> (Valid() <==> sector in t.live || forall k :: 0 <= k < |t.under| ==>
                                  t.under[k].holder != sector)
    {
      hide Shaped, Refs, Unreferenced, Flown, Backed;
      ReleasedLaid(f, S(), t, sector);
      ghost var s' := Released(f, S(), sector);
      ReleasedFlown(f, S(), t.under, sector);
      if old(Valid()) { ReleasedGoodIff(f, S(), t, sector); }
      t := t.(live := t.live - multiset{sector});
      if used[sector] == 1 {
        used := used - {sector};
        if sector == cur {
          inPos := f.bs;
        }
      } else {
        used := used[sector := used[sector] - 1];
      }
      assert S() == s';
    }

    /** The position that the start can move to: the first referenced sector in ring order, or the
        next free position when nothing is referenced. */
    method GetTrimPos() returns (pos: nat)
      requires Sound()
      ensures pos == StartOf(t.ch, next, FirstUsed(t.live, t.ch))
    {
      hide Linked, InOrder, Flown;
      var found;
      found, pos := LowerBound(used.Keys, start);
      if !found {
        found, pos := LowerBound(used.Keys, 0);
      }
      if found {
        LeastIsFirst(R(), Pos(), t.base, t.ch, t.live, pos);
      } else {
        pos := next;
      }
    }

    /** Starts writing a new start position to the disk. */
    method BeginTrim()
      requires Sound() && trim.Idle?
      modifies this`trim, this`t
      ensures Sound() && t == old(t).(cut := t.cut) && (old(Valid()) ==> Valid())
      ensures trim.Trimming? <==> StartOf(t.ch, next, FirstUsed(t.live, t.ch)) != start
      ensures trim.Trimming? ==> t.cut == FirstUsed(t.live, t.ch) && trim.to == StartOf(t.ch, next, t.cut)
    {
      hide Shaped, Refs, Flown, Backed;
      var pos := GetTrimPos();
      if pos != start {
        assert Flown(S().(trim := Trimming(pos)), t.under) by { SameFlown(S(), Trimming(pos), t.under); }
        t := t.(cut := FirstUsed(t.live, t.ch));
        trim := Trimming(pos);
      }
    }

    /** The new start is on the disk. Only sectors are given up that no version in memory refers to. If nothing
        under way lost what it depends on, whatever was appended, completed or released meanwhile, none of them
        has an entry under way either, and the rest stays where it is. */
    method FinishTrim()
      requires Sound() && trim.Trimming?
      modifies this`trim, this`start, this`t
      ensures Sound() && trim == Idle && start == old(trim.to) && t == Trimmed(old(t))
      ensures forall s :: s in t.live ==> HasSector(t.ch, s)
      ensures old(Valid()) ==> Valid() && forall k :: 0 <= k < |t.under| ==> HasSector(t.ch, t.under[k].sector)
    {
      hide Laid, Good, OpenOk, Flown, Refs;
      TrimmedLaid(f, S(), t);
      if old(Valid()) { TrimmedGood(f, S(), t); }
      ghost var s' := S().(start := trim.to, trim := TrimState.Idle);
      t := Trimmed(t);
      start := trim.to;
      trim := TrimState.Idle;
      assert S() == s';
    }

    /** After a restart, replay from the recorded start finds a piece of the history. The disk has every entry
        that is not under way, and any beginnings of the sectors beyond that. While a trim is under way the new start
        may be the one on the disk: then replay finds what the trim leaves. If and only if the disk does not have a
        sector of the turn before at the start, that is the journal up to the first entry that is missing on
        the disk, and unless an operation was told too early, everything that is not under way is found. */
    method Restart(disk: map<nat, Block>, newStart: bool) returns (es: seq<LogEntry>, pos: nat, bug: bool)
      requires Valid() && (newStart ==> trim.Trimming?)
      requires Honest(disk, t.ch, |t.past|) && Lasting(disk, t.ch, |t.past|, Numbers(t.under))
      requires OnlyPieces(disk, History(t))
      ensures var left, from := if newStart then Trimmed(t) else t, if newStart then trim.to else start;
              var ch, n, pend := left.ch, |left.past|, Numbers(t.under);
              && (es == Recovered(disk, ch, n) <==> !Stale(disk, from, n))
              && (!Stale(disk, from, n) ==>
                    && !bug && (Overtaken(ch, n, pend) || FoundAll(disk, ch, n, pend))
                    && (FirstShort(disk, ch, n, 0) == |ch| ==> es == Entries(ch) && pos == next))
              && (Stale(disk, from, n) ==>
                    var a := disk[from].first;
                    && a + |es| <= |History(t)| && es == History(t)[a..a + |es|] && disk[from].es <= es
                    && (!bug && pos in disk ==> disk[pos].first != a + |es|)
                    && (|es| > |disk[from].es| ==> Continues(disk, a + |disk[from].es|)))
      ensures newStart ==> forall k :: 0 <= k < |t.under| ==> HasSector(Trimmed(t).ch, t.under[k].sector)
    {
      hide Good, OpenOk, Linked, Honest, Lasting, Entries, Recovered, FirstShort, FoundAll, Overtaken, Numbers;
      hide OnlyPieces, NoneEmpty;
      ghost var left := if newStart then Trimmed(t) else t;
      RestartFacts(f, S(), t, disk, newStart);
      var from := if newStart then trim.to else start;
      es, pos, bug := Recover(f.bs, f.len, disk, from, History(t), left.ch, |left.past|, left.base, next,
              t.base + t.dist);
      AllRecovered(disk, left.ch, |left.past|);
      if !Overtaken(left.ch, |left.past|, Numbers(t.under)) {
        AllFound(disk, left.ch, |left.past|, Numbers(t.under));
      }
    }
  }

  // ----- submission and completion

  /** The entries that are not submitted wait for sector write `id` now. */
  function Sent(under: seq<Pending>, id: nat): (r: seq<Pending>)
    ensures |r| == |under|
    ensures forall k :: 0 <= k < |under| ==> r[k] == if under[k].write == 0 then under[k].(write := id) else under[k]
  {
    seq(|under|, k requires 0 <= k < |under| => if under[k].write == 0 then under[k].(write := id) else under[k])
  }

  function WriteId(s: State): nat { if s.joined != 0 then s.joined else s.submitted + 1 }

  function Submitted(s: State): State {
    if s.joined != 0 then s.(written := true, dirty := false)
    else
      s.(written := true, dirty := false, joined := s.submitted + 1, submitted := s.submitted + 1,
         flights := s.flights[s.submitted + 1 := s.cur])
  }

  lemma LandedGood(f: Conf, s: State, t: Trace, id: nat)
    requires Good(f, s, t) && OpenOk(f, s, t)
    ensures Good(f, s.(joined := 0), t) && OpenOk(f, s.(joined := 0), t)
    ensures id != s.joined ==>
              Good(f, s.(flights := s.flights - {id}), t) && OpenOk(f, s.(flights := s.flights - {id}), t)
  {
    hide Shaped, Refs, Unreferenced, Backed, Awaited;
  }

  lemma AwaitedSent(under: seq<Pending>, id: nat, was: nat, sector: nat)
    requires Awaited(under, was, sector)
    ensures Awaited(Sent(under, id), if was == 0 then id else was, sector)
  {
    var k :| 0 <= k < |under| && Awaits(under[k], was, sector);
    assert Awaits(Sent(under, id)[k], if was == 0 then id else was, sector);
  }

  lemma SubmittedFlown(s: State, under: seq<Pending>)
    requires Flown(s, under) && s.dirty
    ensures Flown(Submitted(s), Sent(under, WriteId(s)))
  {
    hide Awaited;
    AwaitedSent(under, WriteId(s), 0, s.cur);
    forall id | id in s.flights ensures Awaited(Sent(under, WriteId(s)), id, s.flights[id]) {
      AwaitedSent(under, WriteId(s), id, s.flights[id]);
    }
  }

  lemma SubmittedGood(f: Conf, s: State, t: Trace)
    requires Good(f, s, t) && OpenOk(f, s, t) && s.dirty
    ensures var s', t' := Submitted(s), t.(under := Sent(t.under, WriteId(s)));
            Good(f, s', t') && OpenOk(f, s', t')
  {
    hide Linked, InOrder, Refs, Flown, NotAfter;
    SubmittedFlown(s, t.under);
    if s.inPos < f.bs {
      var k :| 0 <= k < |t.under| && t.under[k].sector == s.cur;
      assert Sent(t.under, WriteId(s))[k].sector == s.cur;
    }
  }

  function Completed(f: Conf, s: State, sector: nat): State {
    if sector == s.cur && !s.dirty && s.cur !in s.flights.Values then s.(inPos := f.bs) else s
  }

  lemma AwaitedLess(under: seq<Pending>, k: nat, id: nat, sector: nat)
    requires k < |under| && Awaited(under, id, sector) && under[k].write != id
    ensures Awaited(under[..k] + under[k + 1..], id, sector) && HasUnder(under[..k] + under[k + 1..], sector)
  {
    var less := under[..k] + under[k + 1..];
    var i :| 0 <= i < |under| && Awaits(under[i], id, sector);
    var i' := if i < k then i else i - 1;
    assert Awaits(less[i'], id, sector) && less[i'].sector == sector;
  }

  lemma UnderLess(under: seq<Pending>, k: nat, sector: nat)
    requires k < |under| && HasUnder(under, sector) && under[k].sector != sector
    ensures HasUnder(under[..k] + under[k + 1..], sector)
  {
    var i :| 0 <= i < |under| && under[i].sector == sector;
    assert (under[..k] + under[k + 1..])[if i < k then i else i - 1].sector == sector;
  }

  lemma CompletedFlown(f: Conf, s: State, under: seq<Pending>, k: nat)
    requires Flown(s, under) && k < |under| && under[k].write != 0 && under[k].write !in s.flights
    ensures Flown(Completed(f, s, under[k].sector), under[..k] + under[k + 1..])
    ensures s.dirty || s.cur in s.flights.Values ==> HasUnder(under[..k] + under[k + 1..], s.cur)
  {
    hide Awaited, HasUnder;
    var less := under[..k] + under[k + 1..];
    if s.dirty { AwaitedLess(under, k, 0, s.cur); }
    forall id | id in s.flights ensures Awaited(less, id, s.flights[id]) && HasUnder(less, s.flights[id]) {
      AwaitedLess(under, k, id, s.flights[id]);
    }
    forall i | 0 <= i < |less|
      ensures less[i].write <= s.submitted && (less[i].write == 0 ==> s.dirty && less[i].sector == s.cur)
    {
      assert less[i] == under[if i < k then i else i + 1];
    }
  }

  lemma CompletedGood(f: Conf, s: State, t: Trace, k: nat)
    requires Good(f, s, t) && OpenOk(f, s, t) && k < |t.under|
    requires t.under[k].write != 0 && t.under[k].write !in s.flights
    ensures var s', t' := Completed(f, s, t.under[k].sector), t.(under := t.under[..k] + t.under[k + 1..]);
            Good(f, s', t') && OpenOk(f, s', t')
  {
    hide Linked, InOrder, Refs, Flown, HasUnder, NotAfter;
    var under' := t.under[..k] + t.under[k + 1..];
    CompletedFlown(f, s, t.under, k);
    if s.inPos < f.bs && t.under[k].sector != s.cur { UnderLess(t.under, k, s.cur); }
    forall i | 0 <= i < |under'|
      ensures under'[i].holder in t.live && NotAfter(t.ch, under'[i].holder, under'[i].sector)
    {
      assert under'[i] == t.under[if i < k then i else i + 1];
    }
  }

  // ----- references and the trim

  lemma ReleaseRefs(used: map<nat, nat>, live: multiset<nat>, ch: seq<Sector>, sector: nat, k: nat)
    requires Refs(used, live, ch) && sector in live
    ensures var used' := if used[sector] == 1 then used - {sector} else used[sector := used[sector] - 1];
            Refs(used', live - multiset{sector}, ch)
    ensures Unreferenced(live, ch, k) ==> Unreferenced(live - multiset{sector}, ch, k)
    ensures used[sector] == 1 <==> sector !in live - multiset{sector}
  {
  }

  function Released(f: Conf, s: State, sector: nat): State
    requires sector in s.used && s.used[sector] > 0
  {
    if s.used[sector] == 1 then s.(used := s.used - {sector}, inPos := if sector == s.cur then f.bs else s.inPos)
    else s.(used := s.used[sector := s.used[sector] - 1])
  }

  lemma ReleasedLaid(f: Conf, s: State, t: Trace, sector: nat)
    requires Laid(f, s, t) && sector in t.live
    ensures sector in s.used && s.used[sector] > 0
    ensures s.used[sector] == 1 <==> sector !in t.live - multiset{sector}
    ensures Laid(f, Released(f, s, sector), t.(live := t.live - multiset{sector}))
  {
    hide Linked, InOrder;
    ReleaseRefs(s.used, t.live, t.ch, sector, t.cut);
  }

  /** What is under way still has what it depends on exactly if none of it depends on a last reference that goes. */
  lemma ReleasedGoodIff(f: Conf, s: State, t: Trace, sector: nat)
    requires Good(f, s, t) && OpenOk(f, s, t) && sector in t.live && sector in s.used && s.used[sector] > 0
    ensures var s', t' := Released(f, s, sector), t.(live := t.live - multiset{sector});
            (Good(f, s', t') && OpenOk(f, s', t')
             <==> sector in t'.live || forall k :: 0 <= k < |t.under| ==> t.under[k].holder != sector)
  {
    hide Shaped, Refs, Unreferenced, Flown, HasUnder, NotAfter;
    ReleasedLaid(f, s, t, sector);
    var live' := t.live - multiset{sector};
    forall k | 0 <= k < |t.under|
      ensures t.under[k].holder in live' <==> sector in live' || t.under[k].holder != sector
    {
      assert t.under[k].holder in t.live;
    }
    assert Flown(Released(f, s, sector), t.under) by { ReleasedFlown(f, s, t.under, sector); }
  }

  lemma ReleasedFlown(f: Conf, s: State, under: seq<Pending>, sector: nat)
    requires Flown(s, under) && sector in s.used && s.used[sector] > 0
    ensures Flown(Released(f, s, sector), under)
  {
  }

  lemma SameFlown(s: State, trim: TrimState, under: seq<Pending>)
    requires Flown(s, under)
    ensures Flown(s.(trim := trim), under)
  {
  }

  /** What a finished trim leaves. */
  ghost function Trimmed(t: Trace): Trace {
    if t.cut > |t.ch| then t
    else
      var base := LinOf(t.ch, t.base + t.dist, t.cut);
      Trace(t.ch[t.cut..], base, if base <= t.base + t.dist then t.base + t.dist - base else 0,
            t.past + Entries(t.ch[..t.cut]), t.live, t.under, 0)
  }

  function AfterTrim(s: State): State
    requires s.trim.Trimming?
  {
    s.(start := s.trim.to, trim := TrimState.Idle)
  }

  lemma TrimmedLaid(f: Conf, s: State, t: Trace)
    requires Laid(f, s, t) && s.trim.Trimming?
    ensures t.cut <= |t.ch| && Laid(f, AfterTrim(s), Trimmed(t))
    ensures forall h :: h in t.live ==> HasSector(t.ch[t.cut..], h)
    ensures NoneEmpty(t.ch) ==> NoneEmpty(Trimmed(t).ch)
    ensures Flown(s, t.under) ==> Flown(AfterTrim(s), t.under)
  {
    hide Linked, InOrder, HasSector;
    DropShaped(RingOf(f, s), Here(f, s, t), t.base, t.ch, t.cut);
    DropRefs(s.used, t.live, t.ch, t.cut);
  }

  lemma TrimmedGood(f: Conf, s: State, t: Trace)
    requires Good(f, s, t) && OpenOk(f, s, t) && s.trim.Trimming?
    ensures t.cut <= |t.ch| && Good(f, AfterTrim(s), Trimmed(t)) && OpenOk(f, AfterTrim(s), Trimmed(t))
    ensures forall k :: 0 <= k < |t.under| ==> HasSector(t.ch[t.cut..], t.under[k].sector)
  {
    hide Shaped, Refs, Flown, HasUnder, HasSector;
    TrimmedLaid(f, s, t);
    DropBacked(t.live, t.ch, t.under, t.cut);
    if s.inPos < f.bs { OpenAfterCut(f, s, t); }
  }

  /** What the entries under way depend on keeps their sectors from being given up. */
  lemma DropBacked(live: multiset<nat>, ch: seq<Sector>, under: seq<Pending>, k: nat)
    requires Backed(live, ch, under) && k <= |ch| && Unreferenced(live, ch, k)
    ensures Backed(live, ch[k..], under)
    ensures forall i :: 0 <= i < |under| ==> HasSector(ch[k..], under[i].sector)
  {
    forall n | 0 <= n < |under|
      ensures NotAfter(ch[k..], under[n].holder, under[n].sector) && HasSector(ch[k..], under[n].sector)
    {
      var i, j :| 0 <= i <= j < |ch| && ch[i].pos == under[n].holder && ch[j].pos == under[n].sector;
      assert ch[k..][i - k].pos == under[n].holder && ch[k..][j - k].pos == under[n].sector;
    }
  }

  lemma DropRefs(used: map<nat, nat>, live: multiset<nat>, ch: seq<Sector>, k: nat)
    requires Refs(used, live, ch) && k <= |ch| && Unreferenced(live, ch, k)
    ensures Refs(used, live, ch[k..])
  {
    forall s | s in live ensures HasSector(ch[k..], s) {
      var i :| 0 <= i < |ch| && ch[i].pos == s;
      assert ch[k..][i - k].pos == s;
    }
  }

  // ----- restart

  lemma AddedIs(f: Conf, s: State, t: Trace, e: LogEntry, ref: bool, holder: nat)
    requires t.ch != []
    ensures var t' := AddedTrace(f, s, t, e, ref, holder);
            && t'.ch == WithEntry(t.ch, e) && t'.base == t.base && t'.past == t.past && t'.cut == t.cut
            && t'.live == (if ref then t.live + multiset{s.cur} else t.live)
            && t'.under == t.under + [AddedPending(s, t, ref, holder)]
            && t'.dist == if e.Small? then Data(RingOf(f, s), Here(f, s, t), e.len).lin else t.dist
  {
  }

  lemma OneMore(ch: seq<Sector>, c: Sector, e: LogEntry)
    ensures var more := WithEntry(ch + [c], e);
            more != [] && Front(more) == ch && Last(more) == c.(es := c.es + [e])
  {
  }

  lemma FilledMore(ch: seq<Sector>, e: LogEntry)
    requires ch != [] && NoneEmpty(Front(ch))
    ensures NoneEmpty(WithEntry(ch, e)) && |WithEntry(ch, e)| == |ch|
  {
    var more := WithEntry(ch, e);
    forall i | 0 <= i < |more| ensures more[i].es != [] {
      if i < |ch| - 1 { assert more[i] == Front(ch)[i]; }
    }
  }

  lemma AllRecovered(disk: map<nat, Block>, ch: seq<Sector>, n: nat)
    ensures FirstShort(disk, ch, n, 0) == |ch| ==> Recovered(disk, ch, n) == Entries(ch)
  {
    assert ch[..|ch|] == ch;
  }

  lemma {:induction false} EntriesSplit(ch: seq<Sector>, c: nat, i: nat)
    requires c + i <= |ch|
    ensures Entries(ch[..c + i]) == Entries(ch[..c]) + Entries(ch[c..][..i])
    decreases i
  {
    if i > 0 {
      EntriesSplit(ch, c, i - 1);
      assert Front(ch[..c + i]) == ch[..c + (i - 1)] && Front(ch[c..][..i]) == ch[c..][..i - 1];
      assert Last(ch[..c + i]) == Last(ch[c..][..i]);
    } else {
      assert ch[c..][..0] == [];
    }
  }

  /** Seen from a later start the sectors have the same numbers. */
  lemma NumberDrop(ch: seq<Sector>, n: nat, c: nat, i: nat)
    requires c + i <= |ch|
    ensures NumberAt(ch[c..], NumberAt(ch, n, c), i) == NumberAt(ch, n, c + i)
  {
    EntriesSplit(ch, c, i);
  }

  lemma HonestDrop(disk: map<nat, Block>, ch: seq<Sector>, n: nat, c: nat)
    requires Honest(disk, ch, n) && c <= |ch|
    ensures Honest(disk, ch[c..], NumberAt(ch, n, c))
  {
    hide NumberAt;
    forall p | p in disk && disk[p].first >= NumberAt(ch, n, c)
      ensures exists i: nat :: OfSector(ch[c..], NumberAt(ch, n, c), p, disk[p], i)
    {
      NumberFrom(ch, n, c);
      var i: nat :| OfSector(ch, n, p, disk[p], i);
      if i < c { NumberGrows(ch, n, i, c); }
      NumberDrop(ch, n, c, i - c);
      var h: nat := i - c;
      assert OfSector(ch[c..], NumberAt(ch, n, c), p, disk[p], h);
    }
  }

  lemma LastingDrop(disk: map<nat, Block>, ch: seq<Sector>, n: nat, pend: set<nat>, c: nat)
    requires Lasting(disk, ch, n, pend) && c <= |ch|
    ensures Lasting(disk, ch[c..], NumberAt(ch, n, c), pend)
  {
    hide NumberAt;
    var n' := NumberAt(ch, n, c);
    forall i: nat, p: nat | DoneAt(ch[c..], n', pend, i, p) ensures p < |OnDisk(disk, ch[c..], n', i)| {
      NumberDrop(ch, n, c, i);
      assert DoneAt(ch, n, pend, c + i, p);
    }
  }

  lemma ApartStart(f: Conf, s: State, t: Trace)
    requires Laid(f, s, t)
    ensures Linked(f.bs, f.len, t.ch, s.start, t.base, s.next, t.base + t.dist)
    ensures forall i :: 0 < i < |t.ch| ==> t.ch[i].pos != s.start
  {
    hide Linked, InOrder, Refs;
    forall i | 0 < i < |t.ch| ensures t.ch[i].pos != s.start {
      Apart(RingOf(f, s), t.base, t.ch, s.start, s.next, t.base + t.dist, 0, i);
      LinkedDrop(f.bs, f.len, t.ch, s.start, t.base, s.next, t.base + t.dist, 0);
    }
  }

  lemma RestartFacts(f: Conf, s: State, t: Trace, disk: map<nat, Block>, newStart: bool)
    requires Good(f, s, t) && OpenOk(f, s, t) && NoneEmpty(t.ch) && (newStart ==> s.trim.Trimming?)
    requires Honest(disk, t.ch, |t.past|) && Lasting(disk, t.ch, |t.past|, Numbers(t.under))
    ensures var left, from := if newStart then Trimmed(t) else t, if newStart then s.trim.to else s.start;
            && Linked(f.bs, f.len, left.ch, from, left.base, s.next, t.base + t.dist)
            && (forall i :: 0 < i < |left.ch| ==> left.ch[i].pos != from)
            && Honest(disk, left.ch, |left.past|) && Lasting(disk, left.ch, |left.past|, Numbers(t.under))
            && NoneEmpty(left.ch)
            && (newStart ==> forall k :: 0 <= k < |t.under| ==> HasSector(left.ch, t.under[k].sector))
  {
    hide Linked, Honest, Lasting, Numbers, OpenOk, Backed, Flown, Shaped, Refs, HasSector;
    if newStart {
      TrimmedGood(f, s, t);
      TrimmedLaid(f, s, t);
      ApartStart(f, AfterTrim(s), Trimmed(t));
      HonestDrop(disk, t.ch, |t.past|, t.cut);
      LastingDrop(disk, t.ch, |t.past|, Numbers(t.under), t.cut);
      TrimmedEnd(f, s, t);
    } else {
      ApartStart(f, s, t);
    }
  }

  lemma TrimmedEnd(f: Conf, s: State, t: Trace)
    requires Laid(f, s, t) && s.trim.Trimming?
    ensures Trimmed(t).base + Trimmed(t).dist == t.base + t.dist
  {
    hide InOrder, Refs;
    LinkedDrop(f.bs, f.len, t.ch, s.start, t.base, s.next, t.base + t.dist, t.cut);
  }
}
