/** The contents of the journal ring: appending entries and their data, finding them again after a
    restart, and moving the start of the live part forward. */
module JournalLog {
  import opened Alignment
  import opened Basics
  import opened JournalRing

  /** A journal entry. `tag` stands for what it says; a small write has `len` bytes of data at `at`. */
  datatype LogEntry = Small(tag: nat, len: nat, at: nat) | Plain(tag: nat)

  // ----- the layout of one sector

  /** The next free offset after the data of `es`, when it was `pos` after their header sector. */
  function AfterEntries(bs: nat, len: nat, pos: nat, es: seq<LogEntry>): nat {
    if es == [] then pos
    else
      var q := AfterEntries(bs, len, pos, Front(es));
      if Last(es).Small? then DataEnd(bs, len, q, Last(es).len) else q
  }

  /** Every small write records the offset where its data goes. */
  predicate Recorded(bs: nat, len: nat, pos: nat, es: seq<LogEntry>) {
    es != [] ==>
      && Recorded(bs, len, pos, Front(es))
      && (Last(es).Small? ==> Last(es).at == DataAt(bs, len, AfterEntries(bs, len, pos, Front(es)), Last(es).len))
  }

  // ----- the chain of sectors

  /** A header sector at offset `pos`. `lin` is its distance from where the journal once began. */
  datatype Sector = Sector(pos: nat, lin: nat, es: seq<LogEntry>)

  /** The sectors follow each other from `start` to `pos`: each begins where the data of the one
      before it ends. */
  ghost predicate Linked(bs: nat, len: nat, ch: seq<Sector>, start: nat, base: nat, pos: nat, lin: nat) {
    if ch == [] then pos == start && lin == base
    else
      var c := Last(ch);
      && Linked(bs, len, Front(ch), start, base, c.pos, c.lin)
      && base <= c.lin && c.lin + bs <= lin
      && pos == AfterEntries(bs, len, Wrap(bs, len, c.pos + bs), c.es)
      && Recorded(bs, len, Wrap(bs, len, c.pos + bs), c.es)
  }

  /** The data of `es` lies at distances from `lo` to `hi`. */
  ghost predicate DataIn(r: Ring, lo: int, hi: int, es: seq<LogEntry>) {
    forall e :: e in es && e.Small? ==> Spans(r, lo, hi, e.at, e.len)
  }

  /** In ring order a header is followed by its data, and that by what comes at `lin`. */
  ghost predicate Housed(r: Ring, base: nat, c: Sector, lin: nat) {
    && c.lin - base >= 0 && c.pos == At(r, c.lin - base) && Aligned(r.bs, c.pos)
    && Spans(r, c.lin - base, c.lin - base + r.bs, c.pos, r.bs)
    && DataIn(r, c.lin - base + r.bs, lin - base, c.es)
  }

  ghost predicate InOrder(r: Ring, base: nat, ch: seq<Sector>, lin: nat) {
    ch != [] ==> InOrder(r, base, Front(ch), Last(ch).lin) && Housed(r, base, Last(ch), lin)
  }

  /** Offset of sector `k`, or of the next free position when there are fewer. */
  function StartOf(ch: seq<Sector>, pos: nat, k: nat): nat { if k < |ch| then ch[k].pos else pos }

  function LinOf(ch: seq<Sector>, lin: nat, k: nat): nat { if k < |ch| then ch[k].lin else lin }

  function Entries(ch: seq<Sector>): seq<LogEntry> {
    if ch == [] then [] else Entries(Front(ch)) + Last(ch).es
  }

  lemma {:induction false} LinkedDrop(bs: nat, len: nat, ch: seq<Sector>, start: nat, base: nat, pos: nat, lin: nat,
          k: nat)
    requires Linked(bs, len, ch, start, base, pos, lin) && k <= |ch|
    ensures Linked(bs, len, ch[k..], StartOf(ch, pos, k), LinOf(ch, lin, k), pos, lin)
    ensures LinOf(ch, lin, k) <= lin && base <= LinOf(ch, lin, k)
    ensures StartOf(ch, pos, 0) == start && LinOf(ch, lin, 0) == base
  {
    if ch != [] {
      if k < |ch| {
        LinkedDrop(bs, len, Front(ch), start, base, Last(ch).pos, Last(ch).lin, k);
        assert Front(ch[k..]) == Front(ch)[k..];
      } else {
        LinkedDrop(bs, len, Front(ch), start, base, Last(ch).pos, Last(ch).lin, k - 1);
      }
    }
  }

  lemma {:induction false} LinkedOrder(bs: nat, len: nat, ch: seq<Sector>, start: nat, base: nat, pos: nat, lin: nat,
          i: nat, k: nat)
    requires Linked(bs, len, ch, start, base, pos, lin) && i < k <= |ch|
    ensures ch[i].lin + bs <= LinOf(ch, lin, k)
  {
    if k < |ch| {
      LinkedOrder(bs, len, Front(ch), start, base, Last(ch).pos, Last(ch).lin, i, k);
    } else if i + 1 < |ch| {
      LinkedOrder(bs, len, Front(ch), start, base, Last(ch).pos, Last(ch).lin, i, k - 1);
    }
  }

  lemma LinkedBounds(bs: nat, len: nat, ch: seq<Sector>, start: nat, base: nat, pos: nat, lin: nat, k: nat)
    requires Linked(bs, len, ch, start, base, pos, lin) && k <= |ch|
    ensures forall i :: k <= i < |ch| ==> LinOf(ch, lin, k) <= ch[i].lin && ch[i].lin + bs <= lin
  {
    forall i | k <= i < |ch| ensures LinOf(ch, lin, k) <= ch[i].lin && ch[i].lin + bs <= lin {
      LinkedOrder(bs, len, ch, start, base, pos, lin, i, |ch|);
      if k < i { LinkedOrder(bs, len, ch, start, base, pos, lin, k, i); }
    }
  }

  lemma {:induction false} InOrderAt(r: Ring, base: nat, ch: seq<Sector>, lin: nat, i: nat)
    requires InOrder(r, base, ch, lin) && i < |ch|
    ensures ch[i].lin >= base && ch[i].pos == At(r, ch[i].lin - base) && Aligned(r.bs, ch[i].pos)
  {
    if i + 1 < |ch| { InOrderAt(r, base, Front(ch), Last(ch).lin, i); }
  }

  /** Two stretches of the live part that are disjoint by distance have different offsets. */
  lemma Apart(r: Ring, base: nat, ch: seq<Sector>, start: nat, pos: nat, lin: nat, i: nat, k: nat)
    requires r.Ok() && Linked(r.bs, r.len, ch, start, base, pos, lin) && InOrder(r, base, ch, lin)
    requires i < k <= |ch| && lin - base < r.Capacity() && pos == At(r, lin - base)
    ensures ch[i].pos != StartOf(ch, pos, k)
  {
    LinkedOrder(r.bs, r.len, ch, start, base, pos, lin, i, k);
    InOrderAt(r, base, ch, lin, i);
    LinkedDrop(r.bs, r.len, ch, start, base, pos, lin, k);
    if k < |ch| { InOrderAt(r, base, ch, lin, k); }
    DistIsInverse(r, ch[i].lin - base, 0);
    DistIsInverse(r, LinOf(ch, lin, k) - base, 0);
  }

  // ----- finding the entries again

  /** A header sector on the disk: its entries and the number of the first of them. Numbers count from where
      the journal once began; they stand for the chain of checksums, by which an entry names the one before it. */
  datatype Block = Block(first: nat, es: seq<LogEntry>)

  /** The number of the first entry of sector `i`, when that of the chain is `n`. */
  function NumberAt(ch: seq<Sector>, n: nat, i: nat): nat
    requires i <= |ch|
  {
    n + |Entries(ch[..i])|
  }

  predicate NoneEmpty(ch: seq<Sector>) { forall i :: 0 <= i < |ch| ==> ch[i].es != [] }

  /** What the disk has of sector `i`. */
  function OnDisk(disk: map<nat, Block>, ch: seq<Sector>, n: nat, i: nat): seq<LogEntry>
    requires i < |ch|
  {
    if ch[i].pos in disk && disk[ch[i].pos].first == NumberAt(ch, n, i) then disk[ch[i].pos].es else []
  }

  ghost predicate OfSector(ch: seq<Sector>, n: nat, p: nat, b: Block, i: nat) {
    i < |ch| && ch[i].pos == p && b.first == NumberAt(ch, n, i) && b.es != [] && b.es <= ch[i].es
  }

  /** What is on the disk from number `n` on was written there: the beginnings of some of the sectors. */
  ghost predicate Honest(disk: map<nat, Block>, ch: seq<Sector>, n: nat) {
    forall p :: p in disk && disk[p].first >= n ==> exists i: nat :: OfSector(ch, n, p, disk[p], i)
  }

  /** The first sector from `i` on that is not wholly on the disk. */
  function FirstShort(disk: map<nat, Block>, ch: seq<Sector>, n: nat, i: nat): (k: nat)
    requires i <= |ch|
    ensures i <= k <= |ch| && (forall j :: i <= j < k ==> OnDisk(disk, ch, n, j) == ch[j].es)
    ensures k < |ch| ==> OnDisk(disk, ch, n, k) != ch[k].es
    decreases |ch| - i
  {
    if i < |ch| && OnDisk(disk, ch, n, i) == ch[i].es then FirstShort(disk, ch, n, i + 1) else i
  }

  /** The entries up to the first one that is missing on the disk. */
  function Recovered(disk: map<nat, Block>, ch: seq<Sector>, n: nat): seq<LogEntry> {
    var k := FirstShort(disk, ch, n, 0);
    Entries(ch[..k]) + if k < |ch| then OnDisk(disk, ch, n, k) else []
  }

  lemma FirstShortIs(disk: map<nat, Block>, ch: seq<Sector>, n: nat, k: nat)
    requires k <= |ch| && (forall j :: 0 <= j < k ==> OnDisk(disk, ch, n, j) == ch[j].es)
    requires k < |ch| ==> OnDisk(disk, ch, n, k) != ch[k].es
    ensures FirstShort(disk, ch, n, 0) == k
  {
    hide FirstShort, OnDisk;
  }

  lemma {:induction false} NumberGrows(ch: seq<Sector>, n: nat, i: nat, k: nat)
    requires i < k <= |ch|
    ensures NumberAt(ch, n, i) + |ch[i].es| <= NumberAt(ch, n, k)
    ensures k == i + 1 ==> NumberAt(ch, n, k) == NumberAt(ch, n, i) + |ch[i].es|
    decreases k
  {
    assert Front(ch[..k]) == ch[..k - 1];
    if i < k - 1 { NumberGrows(ch, n, i, k - 1); }
  }

  /** A number between two first ones is the first of no sector. */
  lemma NumberOf(ch: seq<Sector>, n: nat, i: nat, k: nat, m: nat)
    requires NoneEmpty(ch) && i < |ch| && k <= |ch| && NumberAt(ch, n, i) == NumberAt(ch, n, k) + m
    ensures m == 0 ==> i == k
    ensures k < |ch| && m < |ch[k].es| ==> m == 0
  {
    hide NumberAt;
    if i < k { NumberGrows(ch, n, i, k); }
    if k < i { NumberGrows(ch, n, k, i); }
  }

  /** Walks over the entries of one sector and computes where their data is. `bug` is set when a
      computed offset differs from the recorded one. */
  method RecoverSector(bs: nat, len: nat, pos: nat, es: seq<LogEntry>) returns (next: nat, bug: bool)
    ensures next == AfterEntries(bs, len, pos, es) && (bug <==> !Recorded(bs, len, pos, es))
  {
    next, bug := pos, false;
    for i := 0 to |es|
      invariant next == AfterEntries(bs, len, pos, es[..i]) && (bug <==> !Recorded(bs, len, pos, es[..i]))
    {
      assert Front(es[..i + 1]) == es[..i];
      if es[i].Small? {
        if next + es[i].len > len {
          next := bs;
        }
        var location := next;
        next := next + es[i].len;
        if next >= len {
          next := bs;
        }
        bug := bug || location != es[i].at;
      }
    }
    assert es[..|es|] == es;
  }

  lemma {:induction false} RecordedPrefix(bs: nat, len: nat, pos: nat, es: seq<LogEntry>, i: nat)
    requires Recorded(bs, len, pos, es) && i <= |es|
    ensures Recorded(bs, len, pos, es[..i])
  {
    if i < |es| {
      RecordedPrefix(bs, len, pos, Front(es), i);
      assert Front(es)[..i] == es[..i];
    } else {
      assert es[..i] == es;
    }
  }

  /** The replay so far: everything up to sector `k`, and if that is on the disk only in part, this part too;
      then the next block does not follow on. */
  ghost predicate Reading(disk: map<nat, Block>, ch: seq<Sector>, n: nat, pos: nat, k: nat, short: bool,
                          es: seq<LogEntry>, next: nat) {
    && k <= |ch| && (forall j :: 0 <= j < k ==> OnDisk(disk, ch, n, j) == ch[j].es)
    && if short then
         && k < |ch| && OnDisk(disk, ch, n, k) != ch[k].es && es == Entries(ch[..k]) + OnDisk(disk, ch, n, k)
         && !(next in disk && disk[next].first == n + |es|)
       else es == Entries(ch[..k]) && next == StartOf(ch, pos, k)
  }

  /** A block that follows on is that of the next sector. */
  lemma ReadingAt(disk: map<nat, Block>, ch: seq<Sector>, n: nat, pos: nat, k: nat, short: bool, es: seq<LogEntry>,
          next: nat)
    requires Honest(disk, ch, n) && NoneEmpty(ch) && Reading(disk, ch, n, pos, k, short, es, next)
    requires next in disk && disk[next].first == n + |es|
    ensures k < |ch| && !short && next == ch[k].pos && disk[next].es == OnDisk(disk, ch, n, k)
    ensures disk[next].es != [] && disk[next].es <= ch[k].es
  {
    var i: nat :| OfSector(ch, n, next, disk[next], i);
    NumberOf(ch, n, i, k, 0);
  }

  /** After a part of a sector nothing follows on. */
  lemma NothingFollows(disk: map<nat, Block>, ch: seq<Sector>, n: nat, k: nat, m: nat, p: nat)
    requires Honest(disk, ch, n) && NoneEmpty(ch) && k < |ch| && 0 < m < |ch[k].es|
    ensures !(p in disk && disk[p].first == NumberAt(ch, n, k) + m)
  {
    hide NumberAt;
    if p in disk && disk[p].first == NumberAt(ch, n, k) + m {
      assert NumberAt(ch, n, k) >= n by { NumberFrom(ch, n, k); }
      var i: nat :| OfSector(ch, n, p, disk[p], i);
      NumberOf(ch, n, i, k, m);
    }
  }

  lemma NumberFrom(ch: seq<Sector>, n: nat, k: nat)
    requires k <= |ch|
    ensures NumberAt(ch, n, k) >= n
  {
  }

  lemma ReadingMore(disk: map<nat, Block>, ch: seq<Sector>, n: nat, pos: nat, k: nat, es: seq<LogEntry>, next: nat,
          next': nat)
    requires Honest(disk, ch, n) && NoneEmpty(ch) && Reading(disk, ch, n, pos, k, false, es, next)
    requires next in disk && disk[next].first == n + |es|
    requires k < |ch| && disk[next].es == ch[k].es ==> next' == StartOf(ch, pos, k + 1)
    ensures k < |ch|
    ensures var full := disk[next].es == ch[k].es;
            Reading(disk, ch, n, pos, if full then k + 1 else k, !full, es + disk[next].es, next')
  {
    hide Honest, Entries, OnDisk;
    ReadingAt(disk, ch, n, pos, k, false, es, next);
    if disk[next].es != ch[k].es {
      NothingFollows(disk, ch, n, k, |disk[next].es|, next');
    } else {
      EntriesOne(ch, k);
    }
  }

  lemma EntriesOne(ch: seq<Sector>, k: nat)
    requires k < |ch|
    ensures Entries(ch[..k + 1]) == Entries(ch[..k]) + ch[k].es
  {
    assert Front(ch[..k + 1]) == ch[..k];
  }

  lemma ReadingEnd(disk: map<nat, Block>, ch: seq<Sector>, n: nat, pos: nat, k: nat, short: bool, es: seq<LogEntry>,
          next: nat)
    requires NoneEmpty(ch) && Reading(disk, ch, n, pos, k, short, es, next)
    requires !(next in disk && disk[next].first == n + |es|)
    ensures es == Recovered(disk, ch, n) && (FirstShort(disk, ch, n, 0) == |ch| ==> next == pos)
  {
    FirstShortIs(disk, ch, n, k);
  }

  /** The block is a piece of everything that was ever journaled. */
  predicate PieceOf(b: Block, all: seq<LogEntry>) {
    b.es != [] && b.first + |b.es| <= |all| && b.es == all[b.first..b.first + |b.es|]
  }

  ghost predicate OnlyPieces(disk: map<nat, Block>, all: seq<LogEntry>) {
    forall p :: p in disk ==> PieceOf(disk[p], all)
  }

  ghost predicate Continues(disk: map<nat, Block>, n: nat) { exists p :: p in disk && disk[p].first == n }

  /** At the start the disk still has a sector from the turn before. */
  predicate Stale(disk: map<nat, Block>, start: nat, n: nat) { start in disk && disk[start].first < n }

  lemma PieceMore(all: seq<LogEntry>, from: nat, es: seq<LogEntry>, b: Block)
    requires from + |es| <= |all| && es == all[from..from + |es|] && PieceOf(b, all) && b.first == from + |es|
    ensures from + |es + b.es| <= |all| && es + b.es == all[from..from + |es + b.es|]
  {
  }

  /** The block at the start is that of the first sector, unless it is stale. */
  lemma StartFollows(bs: nat, len: nat, disk: map<nat, Block>, ch: seq<Sector>, n: nat, start: nat, base: nat, pos: nat,
          lin: nat)
    requires Linked(bs, len, ch, start, base, pos, lin) && Honest(disk, ch, n) && NoneEmpty(ch)
    requires !Stale(disk, start, n) && forall i :: 0 < i < |ch| ==> ch[i].pos != start
    ensures start in disk ==> disk[start].first == n
  {
    if start in disk {
      var i: nat :| OfSector(ch, n, start, disk[start], i);
      assert i == 0 && ch[..0] == [];
    }
  }

  /** Replay from the recorded start. The first block is taken as it is; after that each has to follow on.
      What it finds is always a piece of the history. If the first block is not one of the turn before, it finds
      the entries up to the first one that is missing on the disk and nothing else, with every recorded data offset
      where it computes it; and if nothing is missing, it stops at the next free position. */
  method Recover(bs: nat, len: nat, disk: map<nat, Block>, start: nat, ghost all: seq<LogEntry>,
                 ghost ch: seq<Sector>, ghost n: nat, ghost base: nat, ghost pos: nat, ghost lin: nat)
      returns (es: seq<LogEntry>, next: nat, bug: bool)
    requires Linked(bs, len, ch, start, base, pos, lin) && Honest(disk, ch, n) && NoneEmpty(ch) && OnlyPieces(disk, all)
    requires forall i :: 0 < i < |ch| ==> ch[i].pos != start
    ensures es == Recovered(disk, ch, n) <==> !Stale(disk, start, n)
    ensures !Stale(disk, start, n) ==> !bug && (FirstShort(disk, ch, n, 0) == |ch| ==> next == pos)
    ensures start in disk ==> var from := disk[start].first;
                              from + |es| <= |all| && es == all[from..from + |es|] && disk[start].es <= es
    ensures start in disk && !bug && next in disk ==> disk[next].first != disk[start].first + |es|
    ensures start in disk && |es| > |disk[start].es| ==> Continues(disk, disk[start].first + |disk[start].es|)
  {
    hide Honest, Reading, Recorded, AfterEntries, Linked, FirstShort, Recovered, PieceOf, OnlyPieces, NoneEmpty;
    es, next, bug := [], start, false;
    var started: bool, expected: nat := false, 0;
    ghost var k, short, stale := 0, false, Stale(disk, start, n);
    ghost var from := if start in disk then disk[start].first else 0;
    if start in disk { PieceAt(disk, all, start); }
    ReadingStart(bs, len, disk, ch, n, start, base, pos, lin);
    if !stale { StartFollows(bs, len, disk, ch, n, start, base, pos, lin); }
    while next in disk && (!started || disk[next].first == expected) && !bug
      invariant !started ==> es == [] && next == start && !bug
      invariant started ==> start in disk && disk[start].es <= es && expected == from + |es|
      invariant start in disk && |es| > |disk[start].es| ==> Continues(disk, from + |disk[start].es|)
      invariant start in disk ==> from + |es| <= |all| && es == all[from..from + |es|]
      invariant !stale ==> Reading(disk, ch, n, pos, k, short, es, next) && !bug && k <= |ch|
      decreases !started, Rest(disk, expected)
    {
      ghost var b := disk[next];
      PieceAt(disk, all, next);
      PieceMore(all, from, es, b);
      if !stale { ReadBlock(bs, len, disk, ch, n, start, base, pos, lin, k, short, es, next); }
      if started { RestLess(disk, expected, next); }
      var found, next' := disk[next].es, 0;
      expected := disk[next].first + |found|;
      next', bug := RecoverSector(bs, len, Wrap(bs, len, next + bs), found);
      if !stale {
        ReadingMore(disk, ch, n, pos, k, es, next, next');
        short := found != ch[k].es;
        k := if short then k else k + 1;
      }
      es, next, started := es + found, next', true;
    }
    if !stale {
      ReadingEnd(disk, ch, n, pos, k, short, es, next);
    } else {
      StaleNothing(disk, ch, n, start, base, pos, lin, bs, len);
    }
  }

  /** Nothing of the chain is found when the first block is stale. */
  lemma StaleNothing(disk: map<nat, Block>, ch: seq<Sector>, n: nat, start: nat, base: nat, pos: nat, lin: nat, bs: nat,
          len: nat)
    requires Linked(bs, len, ch, start, base, pos, lin) && Stale(disk, start, n) && NoneEmpty(ch)
    ensures Recovered(disk, ch, n) == []
  {
    LinkedDrop(bs, len, ch, start, base, pos, lin, 0);
    assert ch[..0] == [];
    FirstShortIs(disk, ch, n, 0);
  }

  lemma PieceAt(disk: map<nat, Block>, all: seq<LogEntry>, p: nat)
    requires OnlyPieces(disk, all) && p in disk
    ensures PieceOf(disk[p], all) && disk[p].es != [] && disk[p].first <= |all|
  {
  }

  /** The blocks that may still follow. */
  ghost function Rest(disk: map<nat, Block>, expected: nat): set<nat> {
    set p | p in disk && disk[p].first >= expected
  }

  lemma RestLess(disk: map<nat, Block>, expected: nat, p: nat)
    requires p in disk && disk[p].first == expected && disk[p].es != []
    ensures Rest(disk, expected + |disk[p].es|) < Rest(disk, expected)
  {
    assert p in Rest(disk, expected) && p !in Rest(disk, expected + |disk[p].es|);
  }

  lemma ReadBlock(bs: nat, len: nat, disk: map<nat, Block>, ch: seq<Sector>, n: nat, start: nat, base: nat, pos: nat,
          lin: nat, k: nat, short: bool, es: seq<LogEntry>, next: nat)
    requires Linked(bs, len, ch, start, base, pos, lin) && Honest(disk, ch, n) && NoneEmpty(ch)
    requires Reading(disk, ch, n, pos, k, short, es, next) && next in disk && disk[next].first == n + |es|
    ensures k < |ch| && !short && Recorded(bs, len, Wrap(bs, len, next + bs), disk[next].es)
    ensures disk[next].es == ch[k].es ==>
      AfterEntries(bs, len, Wrap(bs, len, next + bs), disk[next].es) == StartOf(ch, pos, k + 1)
  {
    hide Honest, Reading, Recorded, AfterEntries, Linked;
    ReadingAt(disk, ch, n, pos, k, short, es, next);
    LinkedAt(bs, len, ch, start, base, pos, lin, k);
    var found := disk[next].es;
    RecordedPrefix(bs, len, Wrap(bs, len, next + bs), ch[k].es, |found|);
    assert found == ch[k].es[..|found|];
  }

  lemma ReadingStart(bs: nat, len: nat, disk: map<nat, Block>, ch: seq<Sector>, n: nat, start: nat, base: nat,
          pos: nat, lin: nat)
    requires Linked(bs, len, ch, start, base, pos, lin)
    ensures Reading(disk, ch, n, pos, 0, false, [], start)
  {
    LinkedDrop(bs, len, ch, start, base, pos, lin, 0);
    assert ch[..0] == [];
  }

  lemma {:induction false} LinkedAt(bs: nat, len: nat, ch: seq<Sector>, start: nat, base: nat, pos: nat, lin: nat,
          k: nat)
    requires Linked(bs, len, ch, start, base, pos, lin) && k < |ch|
    ensures var q := Wrap(bs, len, ch[k].pos + bs);
            Recorded(bs, len, q, ch[k].es) && AfterEntries(bs, len, q, ch[k].es) == StartOf(ch, pos, k + 1)
  {
    if k + 1 < |ch| { LinkedAt(bs, len, Front(ch), start, base, Last(ch).pos, Last(ch).lin, k); }
  }

  /** The whole chain on the disk, but for the last entry of sector `j`. */
  function DiskOf(ch: seq<Sector>, n: nat, j: nat): map<nat, Block>
    requires NoneEmpty(ch)
  {
    if ch == [] then map[]
    else
      var disk := DiskOf(Front(ch), n, j);
      var es := if |ch| - 1 == j then Front(Last(ch).es) else Last(ch).es;
      if es == [] then disk else disk[Last(ch).pos := Block(NumberAt(ch, n, |ch| - 1), es)]
  }

  lemma {:induction false} DiskOfKeys(ch: seq<Sector>, n: nat, j: nat, p: nat)
    requires NoneEmpty(ch) && p in DiskOf(ch, n, j)
    ensures exists i :: 0 <= i < |ch| && ch[i].pos == p
  {
    if p != Last(ch).pos {
      DiskOfKeys(Front(ch), n, j, p);
      var i :| 0 <= i < |Front(ch)| && Front(ch)[i].pos == p;
      assert ch[i].pos == p;
    } else {
      assert ch[|ch| - 1].pos == p;
    }
  }

  /** What the disk has of the earlier sectors does not depend on the last one. */
  lemma FrontOnDisk(disk: map<nat, Block>, disk': map<nat, Block>, ch: seq<Sector>, n: nat, i: nat)
    requires ch != [] && i < |ch| - 1 && ch[i].pos != Last(ch).pos
    requires forall p :: p != Last(ch).pos ==> (p in disk <==> p in disk') && (p in disk ==> disk[p] == disk'[p])
    ensures OnDisk(disk', ch, n, i) == OnDisk(disk, Front(ch), n, i)
    ensures NumberAt(ch, n, i) == NumberAt(Front(ch), n, i)
  {
    assert Front(ch)[..i] == ch[..i];
  }

  /** No sector of the chain overwrites another one. */
  lemma {:induction false} DiskOfStores(r: Ring, base: nat, ch: seq<Sector>, start: nat, pos: nat, lin: nat, n: nat,
          j: nat, i: nat)
    requires r.Ok() && Linked(r.bs, r.len, ch, start, base, pos, lin) && InOrder(r, base, ch, lin)
    requires lin - base < r.Capacity() && pos == At(r, lin - base) && NoneEmpty(ch) && i < |ch|
    ensures OnDisk(DiskOf(ch, n, j), ch, n, i) == if i == j then Front(ch[i].es) else ch[i].es
  {
    var c := Last(ch);
    InOrderAt(r, base, ch, lin, |ch| - 1);
    LinkedOrder(r.bs, r.len, ch, start, base, pos, lin, |ch| - 1, |ch|);
    if i < |ch| - 1 {
      Apart(r, base, ch, start, pos, lin, i, |ch| - 1);
      FrontOnDisk(DiskOf(Front(ch), n, j), DiskOf(ch, n, j), ch, n, i);
      DiskOfStores(r, base, Front(ch), start, c.pos, c.lin, n, j, i);
    } else if c.pos in DiskOf(Front(ch), n, j) {
      DiskOfKeys(Front(ch), n, j, c.pos);
      var h :| 0 <= h < |Front(ch)| && Front(ch)[h].pos == c.pos;
      Apart(r, base, ch, start, pos, lin, h, |ch| - 1);
    }
  }

  lemma {:induction false} DiskOfHonest(ch: seq<Sector>, n: nat, j: nat)
    requires NoneEmpty(ch)
    ensures Honest(DiskOf(ch, n, j), ch, n)
  {
    if ch != [] {
      DiskOfHonest(Front(ch), n, j);
      forall p | p in DiskOf(ch, n, j) ensures exists i: nat :: OfSector(ch, n, p, DiskOf(ch, n, j)[p], i) {
        DiskOfBlock(ch, n, j, p);
      }
    }
  }

  lemma DiskOfBlock(ch: seq<Sector>, n: nat, j: nat, p: nat)
    requires NoneEmpty(ch) && p in DiskOf(ch, n, j) && Honest(DiskOf(Front(ch), n, j), Front(ch), n)
    ensures exists i: nat :: OfSector(ch, n, p, DiskOf(ch, n, j)[p], i)
  {
    var b, last: nat := DiskOf(ch, n, j)[p], |ch| - 1;
    var es := if last == j then Front(Last(ch).es) else Last(ch).es;
    assert es <= Last(ch).es;
    if es != [] && p == Last(ch).pos {
      assert OfSector(ch, n, p, b, last);
    } else {
      assert b == DiskOf(Front(ch), n, j)[p];
      DiskOfNumbers(Front(ch), n, j, p);
      OfFront(DiskOf(Front(ch), n, j), ch, n, p);
    }
  }

  lemma OfFront(disk: map<nat, Block>, ch: seq<Sector>, n: nat, p: nat)
    requires ch != [] && Honest(disk, Front(ch), n) && p in disk && disk[p].first >= n
    ensures exists i: nat :: OfSector(ch, n, p, disk[p], i)
  {
    var i: nat :| OfSector(Front(ch), n, p, disk[p], i);
    assert Front(ch)[..i] == ch[..i];
    assert OfSector(ch, n, p, disk[p], i);
  }

  lemma {:induction false} DiskOfNumbers(ch: seq<Sector>, n: nat, j: nat, p: nat)
    requires NoneEmpty(ch) && p in DiskOf(ch, n, j)
    ensures DiskOf(ch, n, j)[p].first >= n
  {
    if p in DiskOf(Front(ch), n, j) { DiskOfNumbers(Front(ch), n, j, p); }
  }

  // ----- which entries survive

  /** Entry `p` of sector `i` is there and not under way; `pend` has the numbers of those that are. */
  ghost predicate DoneAt(ch: seq<Sector>, n: nat, pend: set<nat>, i: nat, p: nat) {
    i < |ch| && p < |ch[i].es| && NumberAt(ch, n, i) + p !in pend
  }

  /** Every entry that is not under way is on the disk. Those under way may be there or not. */
  ghost predicate Lasting(disk: map<nat, Block>, ch: seq<Sector>, n: nat, pend: set<nat>) {
    forall i: nat, p: nat :: DoneAt(ch, n, pend, i, p) ==> p < |OnDisk(disk, ch, n, i)|
  }

  /** Replay finds every entry that is not under way. */
  ghost predicate FoundAll(disk: map<nat, Block>, ch: seq<Sector>, n: nat, pend: set<nat>) {
    forall i: nat, p: nat :: DoneAt(ch, n, pend, i, p) ==> NumberAt(ch, n, i) + p < n + |Recovered(disk, ch, n)|
  }

  /** An entry is done behind a sector whose last entry is under way. */
  ghost predicate Overtakes(ch: seq<Sector>, n: nat, pend: set<nat>, j: nat, i: nat, p: nat) {
    j < i && DoneAt(ch, n, pend, i, p) && ch[j].es != [] && NumberAt(ch, n, j) + |ch[j].es| - 1 in pend
  }

  ghost predicate Overtaken(ch: seq<Sector>, n: nat, pend: set<nat>) {
    exists j: nat, i: nat, p: nat :: Overtakes(ch, n, pend, j, i, p)
  }

  lemma RecoveredSize(disk: map<nat, Block>, ch: seq<Sector>, n: nat)
    ensures var k := FirstShort(disk, ch, n, 0);
            n + |Recovered(disk, ch, n)| == NumberAt(ch, n, k) + if k < |ch| then |OnDisk(disk, ch, n, k)| else 0
  {
  }

  /** What the disk has of a sector is its beginning. */
  lemma HonestPart(disk: map<nat, Block>, ch: seq<Sector>, n: nat, i: nat)
    requires Honest(disk, ch, n) && NoneEmpty(ch) && i < |ch|
    ensures OnDisk(disk, ch, n, i) <= ch[i].es
  {
    if OnDisk(disk, ch, n, i) != [] {
      var b := disk[ch[i].pos];
      var h: nat :| OfSector(ch, n, ch[i].pos, b, h);
      NumberOf(ch, n, h, i, 0);
    }
  }

  /** An entry that is done and not found is behind the first sector that is short, the last entry of which is
      under way. */
  lemma LostIsOvertaken(disk: map<nat, Block>, ch: seq<Sector>, n: nat, pend: set<nat>, i: nat, p: nat)
    requires Honest(disk, ch, n) && NoneEmpty(ch) && Lasting(disk, ch, n, pend) && DoneAt(ch, n, pend, i, p)
    requires NumberAt(ch, n, i) + p >= n + |Recovered(disk, ch, n)|
    ensures Overtaken(ch, n, pend)
  {
    hide Honest, NumberAt, Recovered, OnDisk;
    var k := FirstShort(disk, ch, n, 0);
    RecoveredSize(disk, ch, n);
    if i < k { NumberGrows(ch, n, i, k); }
    assert p < |OnDisk(disk, ch, n, i)|;
    HonestPart(disk, ch, n, k);
    var last: nat := |ch[k].es| - 1;
    assert !DoneAt(ch, n, pend, k, last);
    assert Overtakes(ch, n, pend, k, i, p);
  }

  lemma OvertakenIsLost(r: Ring, base: nat, ch: seq<Sector>, start: nat, pos: nat, lin: nat, n: nat, pend: set<nat>,
          j: nat, i: nat, p: nat)
    requires r.Ok() && Linked(r.bs, r.len, ch, start, base, pos, lin) && InOrder(r, base, ch, lin)
    requires lin - base < r.Capacity() && pos == At(r, lin - base) && NoneEmpty(ch)
    requires Overtakes(ch, n, pend, j, i, p)
    ensures var disk := DiskOf(ch, n, j);
            Honest(disk, ch, n) && Lasting(disk, ch, n, pend) && !FoundAll(disk, ch, n, pend)
  {
    hide Linked, InOrder, Recovered, NumberAt, OnDisk, DiskOf;
    var disk := DiskOf(ch, n, j);
    DiskOfHonest(ch, n, j);
    forall h: nat | h < |ch| ensures OnDisk(disk, ch, n, h) == if h == j then Front(ch[h].es) else ch[h].es {
      DiskOfStores(r, base, ch, start, pos, lin, n, j, h);
    }
    FirstShortIs(disk, ch, n, j);
    RecoveredSize(disk, ch, n);
    NumberGrows(ch, n, j, i);
    assert DoneAt(ch, n, pend, i, p);
  }

  /** After a crash replay finds everything that was done, whatever of the rest is on the disk, if and only if
      nothing is done behind a sector whose last entry is still under way. */
  lemma SurvivesIff(r: Ring, base: nat, ch: seq<Sector>, start: nat, pos: nat, lin: nat, n: nat, pend: set<nat>)
    requires r.Ok() && Linked(r.bs, r.len, ch, start, base, pos, lin) && InOrder(r, base, ch, lin)
    requires lin - base < r.Capacity() && pos == At(r, lin - base) && NoneEmpty(ch)
    ensures (forall disk :: Honest(disk, ch, n) && Lasting(disk, ch, n, pend) ==> FoundAll(disk, ch, n, pend))
       <==> !Overtaken(ch, n, pend)
  {
    hide Linked, InOrder, Honest, Recovered, Overtakes;
    if Overtaken(ch, n, pend) {
      var j: nat, i: nat, p: nat :| Overtakes(ch, n, pend, j, i, p);
      OvertakenIsLost(r, base, ch, start, pos, lin, n, pend, j, i, p);
    } else {
      forall disk | Honest(disk, ch, n) && Lasting(disk, ch, n, pend) ensures FoundAll(disk, ch, n, pend) {
        AllFound(disk, ch, n, pend);
      }
    }
  }

  lemma AllFound(disk: map<nat, Block>, ch: seq<Sector>, n: nat, pend: set<nat>)
    requires Honest(disk, ch, n) && NoneEmpty(ch) && Lasting(disk, ch, n, pend) && !Overtaken(ch, n, pend)
    ensures FoundAll(disk, ch, n, pend)
  {
    hide Honest, Recovered, Overtaken, Lasting, NumberAt;
    forall i: nat, p: nat | DoneAt(ch, n, pend, i, p)
      ensures NumberAt(ch, n, i) + p < n + |Recovered(disk, ch, n)|
    {
      if NumberAt(ch, n, i) + p >= n + |Recovered(disk, ch, n)| { LostIsOvertaken(disk, ch, n, pend, i, p); }
    }
  }

  // ----- one entry more

  /** The chain with one more entry in its last sector. */
  function WithEntry(ch: seq<Sector>, e: LogEntry): seq<Sector>
    requires ch != []
  {
    Front(ch) + [Last(ch).(es := Last(ch).es + [e])]
  }

  lemma EntryLinked(r: Ring, base: nat, ch: seq<Sector>, start: nat, pos: nat, lin: nat, e: LogEntry, lin': nat)
    requires ch != [] && Linked(r.bs, r.len, ch, start, base, pos, lin) && lin <= lin'
    requires e.Small? ==> e.at == DataAt(r.bs, r.len, pos, e.len)
    ensures Linked(r.bs, r.len, WithEntry(ch, e), start, base,
                   if e.Small? then DataEnd(r.bs, r.len, pos, e.len) else pos, lin')
  {
    hide Wrap, DataAt, DataEnd;
    var c := Last(ch);
    assert Front(WithEntry(ch, e)) == Front(ch) && Last(WithEntry(ch, e)) == c.(es := c.es + [e]);
    assert Front(c.es + [e]) == c.es && Last(c.es + [e]) == e;
  }

  lemma SpansWider(r: Ring, lo: int, hi: int, lo': int, hi': int, pos: nat, n: nat)
    requires Spans(r, lo, hi, pos, n) && lo' <= lo && hi <= hi'
    ensures Spans(r, lo', hi', pos, n)
  {
  }

  lemma DataInSnoc(r: Ring, lo: int, mid: int, hi: int, es: seq<LogEntry>, e: LogEntry)
    requires DataIn(r, lo, mid, es) && lo <= mid <= hi && (e.Small? ==> Spans(r, mid, hi, e.at, e.len))
    ensures DataIn(r, lo, hi, es + [e])
  {
    forall x | x in es + [e] && x.Small? ensures Spans(r, lo, hi, x.at, x.len) {
      if x in es { SpansWider(r, lo, mid, lo, hi, x.at, x.len); } else { SpansWider(r, mid, hi, lo, hi, x.at, x.len); }
    }
  }

  lemma EntryInOrder(r: Ring, base: nat, ch: seq<Sector>, lin: nat, e: LogEntry, lin': nat)
    requires ch != [] && InOrder(r, base, ch, lin) && base <= Last(ch).lin && Last(ch).lin + r.bs <= lin <= lin'
    requires e.Small? ==> Spans(r, lin - base, lin' - base, e.at, e.len)
    ensures InOrder(r, base, WithEntry(ch, e), lin')
  {
    var c := Last(ch);
    assert Front(WithEntry(ch, e)) == Front(ch) && Last(WithEntry(ch, e)) == c.(es := c.es + [e]);
    DataInSnoc(r, c.lin - base + r.bs, lin - base, lin' - base, c.es, e);
  }

  lemma HeaderSpans(r: Ring, c: Cursor)
    requires Placed(r, c) && c.lin + r.bs <= r.Capacity()
    ensures Spans(r, c.lin, c.lin + r.bs, c.pos, r.bs)
  {
    AlignedGap(r.bs, c.pos, r.len);
    if c.pos < r.start { AlignedGap(r.bs, c.pos, r.start); }
  }

  // ----- moving the start

  /** The ring when its live part starts `d` bytes later. */
  function Moved(r: Ring, d: nat): Ring
    requires r.Ok() && d < r.Capacity()
  {
    Ring(r.bs, r.len, At(r, d))
  }

  /** Distances from a later start. */
  lemma Rebase(r: Ring, d: nat, l: nat, b: nat)
    requires r.Ok() && d <= l < r.Capacity()
    ensures var r' := Moved(r, d);
            && At(r', l - d) == At(r, l)
            && (r.bs <= b < r.len && d <= Dist(r, b) ==> Dist(r', b) == Dist(r, b) - d)
  {
  }

  lemma SpansRebase(r: Ring, d: nat, lo: int, hi: int, pos: nat, n: nat)
    requires r.Ok() && d < r.Capacity() && d <= lo && Spans(r, lo, hi, pos, n)
    ensures Spans(Moved(r, d), lo - d, hi - d, pos, n)
  {
    Rebase(r, d, d, pos);
  }

  lemma DataInRebase(r: Ring, d: nat, lo: int, hi: int, es: seq<LogEntry>)
    requires r.Ok() && d < r.Capacity() && d <= lo && DataIn(r, lo, hi, es)
    ensures DataIn(Moved(r, d), lo - d, hi - d, es)
  {
    forall e | e in es && e.Small? ensures Spans(Moved(r, d), lo - d, hi - d, e.at, e.len) {
      SpansRebase(r, d, lo, hi, e.at, e.len);
    }
  }

  /** One sector seen from a later start. */
  lemma HousedRebase(r: Ring, base: nat, d: nat, c: Sector, lin: nat)
    requires r.Ok() && d <= c.lin - base < r.Capacity() && Housed(r, base, c, lin)
    ensures Housed(Moved(r, d), base + d, c, lin)
  {
    Rebase(r, d, c.lin - base, 0);
    SpansRebase(r, d, c.lin - base, c.lin - base + r.bs, c.pos, r.bs);
    DataInRebase(r, d, c.lin - base + r.bs, lin - base, c.es);
  }

  lemma {:induction false} InOrderDrop(r: Ring, base: nat, d: nat, ch: seq<Sector>, lin: nat, k: nat)
    requires r.Ok() && d < r.Capacity() && InOrder(r, base, ch, lin) && k <= |ch|
    requires forall i :: k <= i < |ch| ==> d <= ch[i].lin - base < r.Capacity()
    ensures InOrder(Moved(r, d), base + d, ch[k..], lin)
  {
    if k < |ch| {
      InOrderDrop(r, base, d, Front(ch), Last(ch).lin, k);
      assert Front(ch[k..]) == Front(ch)[k..];
      HousedRebase(r, base, d, Last(ch), lin);
    }
  }

  // ----- the live part as a whole

  /** A chain of sectors that fills the ring from its start to `c`. */
  ghost predicate Shaped(r: Ring, c: Cursor, base: nat, ch: seq<Sector>) {
    && Placed(r, c) && c.lin < r.Capacity()
    && Linked(r.bs, r.len, ch, r.start, base, c.pos, base + c.lin)
    && InOrder(r, base, ch, base + c.lin)
  }

  lemma SectorInOrder(r: Ring, c: Cursor, base: nat, ch: seq<Sector>)
    requires Placed(r, c) && InOrder(r, base, ch, base + c.lin) && c.lin + r.bs < r.Capacity()
    ensures InOrder(r, base, ch + [Sector(c.pos, base + c.lin, [])], base + c.lin + r.bs)
  {
    HeaderSpans(r, c);
    assert Front(ch + [Sector(c.pos, base + c.lin, [])]) == ch;
  }

  lemma SectorLinked(bs: nat, len: nat, ch: seq<Sector>, start: nat, base: nat, pos: nat, lin: nat)
    requires Linked(bs, len, ch, start, base, pos, lin)
    ensures Linked(bs, len, ch + [Sector(pos, lin, [])], start, base, Wrap(bs, len, pos + bs), lin + bs)
  {
    assert Front(ch + [Sector(pos, lin, [])]) == ch;
    LinkedDrop(bs, len, ch, start, base, pos, lin, 0);
  }

  lemma SectorShaped(r: Ring, c: Cursor, base: nat, ch: seq<Sector>)
    requires Shaped(r, c, base, ch) && c.lin + r.bs < r.Capacity()
    ensures Shaped(r, NextSector(r, c), base, ch + [Sector(c.pos, base + c.lin, [])])
    ensures NotCrossing(r, c.pos, NextSector(r, c).pos)
  {
    hide Linked, InOrder;
    StepNotCrossing(r, c);
    SectorInOrder(r, c, base, ch);
    SectorLinked(r.bs, r.len, ch, r.start, base, c.pos, base + c.lin);
  }

  lemma PlainShaped(r: Ring, c: Cursor, base: nat, ch: seq<Sector>, e: LogEntry, inPos: nat)
    requires Shaped(r, c, base, ch) && ch != [] && e.Plain? && inPos <= r.bs
    ensures Shaped(r, c.(inPos := inPos), base, WithEntry(ch, e))
  {
    EntryLinked(r, base, ch, r.start, c.pos, base + c.lin, e, base + c.lin);
    EntryInOrder(r, base, ch, base + c.lin, e, base + c.lin);
  }

  lemma SmallInOrder(r: Ring, c: Cursor, base: nat, ch: seq<Sector>, e: LogEntry)
    requires Shaped(r, c, base, ch) && ch != [] && e.Small?
    requires Data(r, c, e.len).lin < r.Capacity() && e.at == DataAt(r.bs, r.len, c.pos, e.len)
    ensures InOrder(r, base, WithEntry(ch, e), base + Data(r, c, e.len).lin)
  {
    DataWithin(r, c, e.len);
    DataSpans(r, c, e.len);
    EntryInOrder(r, base, ch, base + c.lin, e, base + Data(r, c, e.len).lin);
  }

  lemma SmallLinked(r: Ring, c: Cursor, base: nat, ch: seq<Sector>, e: LogEntry)
    requires Shaped(r, c, base, ch) && ch != [] && e.Small?
    requires Data(r, c, e.len).lin < r.Capacity() && e.at == DataAt(r.bs, r.len, c.pos, e.len)
    ensures Linked(r.bs, r.len, WithEntry(ch, e), r.start, base, Data(r, c, e.len).pos, base + Data(r, c, e.len).lin)
  {
    DataWithin(r, c, e.len);
    EntryLinked(r, base, ch, r.start, c.pos, base + c.lin, e, base + Data(r, c, e.len).lin);
  }

  lemma SmallShaped(r: Ring, c: Cursor, base: nat, ch: seq<Sector>, e: LogEntry, inPos: nat)
    requires Shaped(r, c, base, ch) && ch != [] && e.Small? && inPos <= r.bs
    requires Aligned(r.bs, e.len) && Data(r, c, e.len).lin < r.Capacity() && e.at == DataAt(r.bs, r.len, c.pos, e.len)
    ensures Shaped(r, Data(r, c, e.len).(inPos := inPos), base, WithEntry(ch, e))
  {
    hide Linked, InOrder;
    DataPlaced(r, c, e.len);
    SmallLinked(r, c, base, ch, e);
    SmallInOrder(r, c, base, ch, e);
  }

  lemma MovedPlaced(r: Ring, c: Cursor, d: nat)
    requires Placed(r, c) && d <= c.lin < r.Capacity() && Aligned(r.bs, At(r, d))
    ensures Placed(Moved(r, d), c.(lin := c.lin - d))
  {
    DistIsInverse(r, d, 0);
    Rebase(r, d, c.lin, 0);
  }

  lemma StartIs(r: Ring, c: Cursor, base: nat, ch: seq<Sector>, k: nat)
    requires Shaped(r, c, base, ch) && k <= |ch|
    ensures base <= LinOf(ch, base + c.lin, k) <= base + c.lin
    ensures StartOf(ch, c.pos, k) == At(r, LinOf(ch, base + c.lin, k) - base) && Aligned(r.bs, StartOf(ch, c.pos, k))
  {
    LinkedDrop(r.bs, r.len, ch, r.start, base, c.pos, base + c.lin, k);
    if k < |ch| { InOrderAt(r, base, ch, base + c.lin, k); }
  }

  lemma DropPlaced(r: Ring, c: Cursor, base: nat, ch: seq<Sector>, k: nat)
    requires Shaped(r, c, base, ch) && k <= |ch|
    ensures var base' := LinOf(ch, base + c.lin, k);
            && base <= base' <= base + c.lin
            && Placed(Ring(r.bs, r.len, StartOf(ch, c.pos, k)), c.(lin := base + c.lin - base'))
  {
    hide Linked, InOrder;
    StartIs(r, c, base, ch, k);
    MovedPlaced(r, c, LinOf(ch, base + c.lin, k) - base);
  }

  lemma DropInOrder(r: Ring, c: Cursor, base: nat, ch: seq<Sector>, k: nat)
    requires Shaped(r, c, base, ch) && k <= |ch|
    ensures var base' := LinOf(ch, base + c.lin, k);
            InOrder(Ring(r.bs, r.len, StartOf(ch, c.pos, k)), base', ch[k..], base + c.lin)
  {
    hide Linked, InOrder;
    StartIs(r, c, base, ch, k);
    var d := LinOf(ch, base + c.lin, k) - base;
    LinkedBounds(r.bs, r.len, ch, r.start, base, c.pos, base + c.lin, k);
    InOrderDrop(r, base, d, ch, base + c.lin, k);
  }

  /** Moving the start to sector `k` keeps everything from there on where it is. */
  lemma DropShaped(r: Ring, c: Cursor, base: nat, ch: seq<Sector>, k: nat)
    requires Shaped(r, c, base, ch) && k <= |ch|
    ensures var base' := LinOf(ch, base + c.lin, k);
            && base <= base' <= base + c.lin
            && Shaped(Ring(r.bs, r.len, StartOf(ch, c.pos, k)), c.(lin := base + c.lin - base'), base', ch[k..])
  {
    hide Linked, InOrder;
    DropPlaced(r, c, base, ch, k);
    DropInOrder(r, c, base, ch, k);
    LinkedDrop(r.bs, r.len, ch, r.start, base, c.pos, base + c.lin, k);
  }

  /** The ring-order test for an offset of the live part. */
  predicate Between(start: nat, next: nat, s: nat) {
    if next >= start then start <= s < next else s >= start || s < next
  }

  lemma SectorBetween(r: Ring, c: Cursor, base: nat, ch: seq<Sector>, i: nat)
    requires Shaped(r, c, base, ch) && i < |ch|
    ensures Between(r.start, c.pos, ch[i].pos) && ch[i].pos != c.pos
    ensures Dist(r, ch[i].pos) == ch[i].lin - base && ch[i].lin + r.bs <= base + c.lin
  {
    LinkedOrder(r.bs, r.len, ch, r.start, base, c.pos, base + c.lin, i, |ch|);
    InOrderAt(r, base, ch, base + c.lin, i);
    DistIsInverse(r, ch[i].lin - base, 0);
  }

  // ----- reference counts and the trim position

  /** The reference counts `used` are the numbers of live versions by header sector, and all these
      sectors are in the chain. */
  ghost predicate Refs(used: map<nat, nat>, live: multiset<nat>, ch: seq<Sector>) {
    && (forall s :: s in used <==> s in live)
    && (forall s :: s in used ==> used[s] == live[s])
    && (forall s :: s in live ==> HasSector(ch, s))
  }

  ghost predicate HasSector(ch: seq<Sector>, s: nat) { exists i :: 0 <= i < |ch| && ch[i].pos == s }

  /** No live version has its header in the first `k` sectors. */
  ghost predicate Unreferenced(live: multiset<nat>, ch: seq<Sector>, k: nat) {
    forall i :: 0 <= i < k <= |ch| ==> ch[i].pos !in live
  }

  /** The smallest key that is not below `from`. */
  method LowerBound(keys: set<nat>, from: nat) returns (found: bool, k: nat)
    ensures found <==> exists s :: s in keys && s >= from
    ensures found ==> k in keys && k >= from && forall s :: s in keys && s >= from ==> k <= s
  {
    var rest := keys;
    found, k := false, 0;
    while rest != {}
      invariant rest <= keys
      invariant found <==> exists s :: s in keys && s !in rest && s >= from
      invariant found ==> k in keys && k >= from && forall s :: s in keys && s !in rest && s >= from ==> k <= s
      decreases |rest|
    {
      var s :| s in rest;
      if s >= from && (!found || s < k) {
        found, k := true, s;
      }
      rest := rest - {s};
    }
  }

  /** The first sector in ring order that is referenced, if there is one. */
  ghost function FirstUsed(live: multiset<nat>, ch: seq<Sector>): (k: nat)
    ensures k <= |ch| && Unreferenced(live, ch, k)
    ensures k < |ch| ==> ch[k].pos in live
  {
    if ch == [] then 0
    else
      var k := FirstUsed(live, Front(ch));
      if k < |Front(ch)| || Last(ch).pos in live then k else |ch|
  }

  /** In ring order the referenced sector with the least offset from the start on, or else with the
      least offset at all, is the first one. */
  lemma FirstUsedIsLeast(r: Ring, c: Cursor, base: nat, ch: seq<Sector>, live: multiset<nat>, s: nat)
    requires Shaped(r, c, base, ch) && s in live && HasSector(ch, s)
    ensures var k := FirstUsed(live, ch); k < |ch| && Dist(r, ch[k].pos) <= Dist(r, s)
  {
    var k := FirstUsed(live, ch);
    var i :| 0 <= i < |ch| && ch[i].pos == s;
    assert !(i < k);
    SectorBetween(r, c, base, ch, i);
    SectorBetween(r, c, base, ch, k);
    if k < i { LinkedOrder(r.bs, r.len, ch, r.start, base, c.pos, base + c.lin, k, i); }
  }

  lemma LeastIsFirst(r: Ring, c: Cursor, base: nat, ch: seq<Sector>, live: multiset<nat>, pos: nat)
    requires Shaped(r, c, base, ch) && pos in live && forall s :: s in live ==> HasSector(ch, s)
    requires || (pos >= r.start && forall s :: s in live && s >= r.start ==> pos <= s)
             || forall s :: s in live ==> s < r.start && pos <= s
    ensures pos == StartOf(ch, c.pos, FirstUsed(live, ch))
  {
    hide Linked, InOrder, FirstUsed, Unreferenced;
    var k := FirstUsed(live, ch);
    FirstUsedIsLeast(r, c, base, ch, live, pos);
    var q := ch[k].pos;
    assert q in live;
    InOrderAt(r, base, ch, base + c.lin, k);
    SectorBetween(r, c, base, ch, k);
    var i :| 0 <= i < |ch| && ch[i].pos == pos;
    SectorBetween(r, c, base, ch, i);
    InOrderAt(r, base, ch, base + c.lin, i);
  }
}
