/** Slicing a client request into stripes: each part gets a list of buffers for exactly its range, and
    a read that continues in a lower snapshot layer does not touch what upper layers have filled. */
module Slicing {
  import opened Alignment

  /** A piece of a part's buffer list: a stretch of the caller's buffer `idx`, or of the scrap buffer. */
  datatype Piece = User(idx: nat, pos: nat, len: nat) | Scrap(len: nat)

  /** Where one byte goes: to a position in the caller's buffers taken together, or to scrap. */
  datatype Target = To(p: nat) | Nowhere

  /** Total length of the first `n` buffers. */
  function Start(lens: seq<nat>, n: nat): nat
    requires n <= |lens|
  {
    if n == 0 then 0 else Start(lens, n - 1) + lens[n - 1]
  }

  function Range(p: nat, n: nat): (r: seq<Target>)
    ensures |r| == n
  {
    if n == 0 then [] else Range(p, n - 1) + [To(p + n - 1)]
  }

  lemma {:induction false} RangeAt(p: nat, n: nat, i: nat)
    requires i < n
    ensures Range(p, n)[i] == To(p + i)
  {
    if i < n - 1 { RangeAt(p, n - 1, i); }
  }

  function Scraps(n: nat): (r: seq<Target>)
    ensures |r| == n
  {
    if n == 0 then [] else Scraps(n - 1) + [Nowhere]
  }

  lemma {:induction false} ScrapsAt(n: nat, i: nat)
    requires i < n
    ensures Scraps(n)[i] == Nowhere
  {
    if i < n - 1 { ScrapsAt(n - 1, i); }
  }

  function PieceTargets(lens: seq<nat>, x: Piece): seq<Target> {
    match x
    case User(idx, pos, len) => if idx < |lens| then Range(Start(lens, idx) + pos, len) else []
    case Scrap(len) => Scraps(len)
  }

  /** The bytes of a buffer list in order. */
  function Targets(lens: seq<nat>, out: seq<Piece>): seq<Target> {
    if out == [] then [] else Targets(lens, out[..|out| - 1]) + PieceTargets(lens, out[|out| - 1])
  }

  lemma TargetsPush(lens: seq<nat>, out: seq<Piece>, x: Piece)
    ensures Targets(lens, out + [x]) == Targets(lens, out) + PieceTargets(lens, x)
  {
    assert (out + [x])[..|out|] == out;
  }

  /** The place in the caller's buffers that the slicing has come to. */
  datatype Cursor = Cursor(idx: nat, pos: nat)

  predicate CursorOk(lens: seq<nat>, c: Cursor) {
    c.idx <= |lens| && if c.idx < |lens| then c.pos <= lens[c.idx] else c.pos == 0
  }

  function Position(lens: seq<nat>, c: Cursor): nat
    requires CursorOk(lens, c)
  {
    Start(lens, c.idx) + c.pos
  }

  lemma {:induction false} RangeJoin(a: seq<Target>, p: nat, n: nat, m: nat)
    ensures a + Range(p, n) + Range(p + n, m) == a + Range(p, n + m) && a + Range(p, 0) == a
  {
    if m == 0 {
      assert a + Range(p, n) + [] == a + Range(p, n);
    } else {
      RangeJoin(a, p, n, m - 1);
      assert a + Range(p, n) + Range(p + n, m) == (a + Range(p, n) + Range(p + n, m - 1)) + [To(p + n + m - 1)];
    }
  }

  lemma {:induction false} ScrapsJoin(a: seq<Target>, n: nat, m: nat)
    ensures a + Scraps(n) + Scraps(m) == a + Scraps(n + m) && a + Scraps(0) == a
  {
    if m == 0 {
      assert a + Scraps(n) + [] == a + Scraps(n);
    } else {
      ScrapsJoin(a, n, m - 1);
      assert a + Scraps(n) + Scraps(m) == (a + Scraps(n) + Scraps(m - 1)) + [Nowhere];
    }
  }

  /** How much of `left` bytes the current buffer can take, and the cursor after that. */
  function Take(lens: seq<nat>, c: Cursor, left: nat): nat
    requires CursorOk(lens, c) && c.idx < |lens|
  {
    if lens[c.idx] - c.pos < left then lens[c.idx] - c.pos else left
  }

  function Advance(lens: seq<nat>, c: Cursor, left: nat): Cursor
    requires CursorOk(lens, c) && c.idx < |lens|
  {
    if lens[c.idx] - c.pos < left then Cursor(c.idx + 1, 0) else Cursor(c.idx, c.pos + left)
  }

  lemma AdvanceOk(lens: seq<nat>, c: Cursor, left: nat)
    requires CursorOk(lens, c) && c.idx < |lens| && left > 0
    ensures var c' := Advance(lens, c, left);
            && CursorOk(lens, c') && Position(lens, c') == Position(lens, c) + Take(lens, c, left)
            && (Take(lens, c, left) < left ==> c'.idx == c.idx + 1) && (Take(lens, c, left) == left ==> c'.idx == c.idx)
    ensures PieceTargets(lens, User(c.idx, c.pos, Take(lens, c, left))) == Range(Position(lens, c), Take(lens, c, left))
  {
  }

  /** The list has grown by the `k` bytes from position `p` on, unless they are skipped. */
  ghost predicate Took(lens: seq<nat>, out0: seq<Piece>, out: seq<Piece>, skip: bool, p: nat, k: nat) {
    Targets(lens, out) == if skip then Targets(lens, out0) else Targets(lens, out0) + Range(p, k)
  }

  lemma TookMore(lens: seq<nat>, out0: seq<Piece>, out: seq<Piece>, p: nat, k: nat, c: Cursor, left: nat)
    requires CursorOk(lens, c) && c.idx < |lens| && left > 0 && Position(lens, c) == p + k
    requires Took(lens, out0, out, false, p, k)
    ensures var n := Take(lens, c, left); Took(lens, out0, out + [User(c.idx, c.pos, n)], false, p, k + n)
  {
    hide Targets, Range, PieceTargets, Position, Take;
    var n := Take(lens, c, left);
    var x := User(c.idx, c.pos, n);
    AdvanceOk(lens, c, left);
    TargetsPush(lens, out, x);
    assert PieceTargets(lens, x) == Range(p + k, n);
    RangeJoin(Targets(lens, out0), p, k, n);
  }

  lemma TookNothing(lens: seq<nat>, out: seq<Piece>, skip: bool, p: nat)
    ensures Took(lens, out, out, skip, p, 0)
  {
    RangeJoin(Targets(lens, out), p, 0, 0);
  }

  function Push(out: seq<Piece>, x: Piece): seq<Piece> { out + [x] }

  /** `done` bytes are taken and the cursor is behind them. */
  ghost predicate Taking(lens: seq<nat>, c: Cursor, out0: seq<Piece>, out: seq<Piece>, skip: bool, p: nat, done: nat) {
    CursorOk(lens, c) && Position(lens, c) == p + done && Took(lens, out0, out, skip, p, if skip then 0 else done)
  }

  lemma TakeNext(lens: seq<nat>, c: Cursor, out0: seq<Piece>, out: seq<Piece>, skip: bool, p: nat, done: nat, left: nat)
    requires Taking(lens, c, out0, out, skip, p, done) && c.idx < |lens| && left > 0
    ensures CursorOk(lens, c)
    ensures var n, c' := Take(lens, c, left), Advance(lens, c, left);
            && n <= left && (n < left ==> c'.idx == c.idx + 1) && (n == left ==> c'.idx == c.idx)
            && Taking(lens, c', out0, if skip then out else Push(out, User(c.idx, c.pos, n)), skip, p, done + n)
  {
    AdvanceOk(lens, c, left);
    TakeAtMost(lens, c, left);
    hide Took, Position, Take, Advance, Start, Range, PieceTargets, Targets;
    if !skip { TookMore(lens, out0, out, p, done, c, left); }
  }

  /** The first loop of `add_iov`: takes the next `size` bytes of the caller's buffers. */
  method TakeBytes(lens: seq<nat>, c0: Cursor, size: nat, skip: bool, out0: seq<Piece>) returns (c: Cursor,
          out: seq<Piece>)
    requires CursorOk(lens, c0) && Position(lens, c0) + size <= Start(lens, |lens|)
    ensures CursorOk(lens, c) && Position(lens, c) == Position(lens, c0) + size
    ensures Took(lens, out0, out, skip, Position(lens, c0), size)
  {
    hide Took, Position, Take, Advance, CursorOk, Start, Taking, Push, Targets, Range, PieceTargets;
    c, out := c0, out0;
    var left: nat := size;
    ghost var p: nat, done: nat := Position(lens, c0), 0;
    TakeNothing(lens, c, out0, skip);
    while left > 0 && c.idx < |lens|
      invariant left + done == size && Taking(lens, c, out0, out, skip, p, done)
      decreases |lens| - c.idx, left
    {
      TakeNext(lens, c, out0, out, skip, p, done, left);
      var n := Take(lens, c, left);
      if !skip {
        out := Push(out, User(c.idx, c.pos, n));
      }
      c := Advance(lens, c, left);
      left, done := left - n, done + n;
    }
    TakeEnd(lens, c, out0, out, skip, p, done, size);
  }

  lemma TakeNothing(lens: seq<nat>, c: Cursor, out: seq<Piece>, skip: bool)
    requires CursorOk(lens, c)
    ensures Taking(lens, c, out, out, skip, Position(lens, c), 0)
  {
    TookNothing(lens, out, skip, Position(lens, c));
  }

  lemma TakeEnd(lens: seq<nat>, c: Cursor, out0: seq<Piece>, out: seq<Piece>, skip: bool, p: nat, done: nat, size: nat)
    requires Taking(lens, c, out0, out, skip, p, done) && done <= size && p + size <= Start(lens, |lens|)
    requires done == size || c.idx >= |lens|
    ensures CursorOk(lens, c) && Position(lens, c) == p + size && Took(lens, out0, out, skip, p, size)
  {
    if done < size { AtEnd(lens, c); }
    if skip { TookSkipped(lens, out0, out, p, size); }
  }

  lemma TookSkipped(lens: seq<nat>, out0: seq<Piece>, out: seq<Piece>, p: nat, k: nat)
    requires Took(lens, out0, out, true, p, 0)
    ensures Took(lens, out0, out, true, p, k)
  {
  }

  lemma TakeAtMost(lens: seq<nat>, c: Cursor, left: nat)
    requires CursorOk(lens, c) && c.idx < |lens|
    ensures Take(lens, c, left) <= left
  {
  }

  lemma AtEnd(lens: seq<nat>, c: Cursor)
    requires CursorOk(lens, c) && c.idx >= |lens|
    ensures Position(lens, c) == Start(lens, |lens|)
  {
  }

  /** `add_iov`: skipped bytes are left out or, if the skipped range lies inside a part, replaced by
      scrap. */
  method AddIov(lens: seq<nat>, c0: Cursor, size: nat, skip: bool, scrapLen: nat, out0: seq<Piece>)
      returns (c: Cursor, out: seq<Piece>)
    requires CursorOk(lens, c0) && Position(lens, c0) + size <= Start(lens, |lens|)
    ensures CursorOk(lens, c) && Position(lens, c) == Position(lens, c0) + size
    ensures Targets(lens, out) == Targets(lens, out0)
            + if !skip then Range(Position(lens, c0), size) else if scrapLen > 0 then Scraps(size) else []
  {
    hide Targets, Range, Scraps;
    c, out := TakeBytes(lens, c0, size, skip, out0);
    if skip && scrapLen > 0 {
      out := AddScrap(lens, size, scrapLen, out);
    }
  }

  method AddScrap(lens: seq<nat>, size: nat, scrapLen: nat, out0: seq<Piece>) returns (out: seq<Piece>)
    requires scrapLen > 0
    ensures Scrapped(lens, out0, out, size)
  {
    out := out0;
    var left: nat := size;
    ScrapsJoin(Targets(lens, out0), 0, 0);
    assert Scrapped(lens, out0, out, 0);
    hide Scrapped;
    while left > 0
      invariant left <= size && Scrapped(lens, out0, out, size - left)
    {
      var n := if scrapLen < left then scrapLen else left;
      ScrappedMore(lens, out0, out, size - left, n);
      out := out + [Scrap(n)];
      left := left - n;
    }
  }

  ghost predicate Scrapped(lens: seq<nat>, out0: seq<Piece>, out: seq<Piece>, k: nat) {
    Targets(lens, out) == Targets(lens, out0) + Scraps(k)
  }

  lemma ScrappedMore(lens: seq<nat>, out0: seq<Piece>, out: seq<Piece>, k: nat, n: nat)
    requires Scrapped(lens, out0, out, k)
    ensures Scrapped(lens, out0, out + [Scrap(n)], k + n)
  {
    TargetsPush(lens, out, Scrap(n));
    ScrapsJoin(Targets(lens, out0), k, n);
  }

  // ----- one part of a read that skips what is filled already

  /** Where byte `q` of the request goes when `fill` says which bytes are filled. */
  function Wanted(fill: seq<bool>, q: nat): Target { if q < |fill| && fill[q] then Nowhere else To(q) }

  /** The bitmap has one bit per granule. */
  ghost predicate Uniform(fill: seq<bool>, g: nat) {
    forall p: nat, b: nat :: Aligned(g, p) && p <= b < p + g && b < |fill| ==> fill[b] == fill[p]
  }

  /** All bytes from `a` to `b` are filled, or none. */
  ghost predicate Filled(fill: seq<bool>, a: nat, b: nat, value: bool) {
    b <= |fill| && forall q :: a <= q < b ==> fill[q] == value
  }

  /** The buffer list covers the bytes from `a` to `b` of the request. */
  ghost predicate Covers(lens: seq<nat>, fill: seq<bool>, out: seq<Piece>, a: nat, b: nat) {
    && a <= b && |Targets(lens, out)| == b - a
    && forall q :: a <= q < b ==> Targets(lens, out)[q - a] == Wanted(fill, q)
  }

  lemma CoversMore(lens: seq<nat>, fill: seq<bool>, out: seq<Piece>, a: nat, b: nat, out': seq<Piece>, b': nat,
          skip: bool)
    requires Covers(lens, fill, out, a, b) && b <= b' && Filled(fill, b, b', skip)
    requires Targets(lens, out') == Targets(lens, out) + if skip then Scraps(b' - b) else Range(b, b' - b)
    ensures Covers(lens, fill, out', a, b')
  {
    hide Targets;
    forall q | a <= q < b' ensures Targets(lens, out')[q - a] == Wanted(fill, q) {
      if q < b {
        assert Targets(lens, out')[q - a] == Targets(lens, out)[q - a];
      } else {
        if skip { ScrapsAt(b' - b, q - b); } else { RangeAt(b, b' - b, q - b); }
      }
    }
  }

  /** A stretch between two changes of the bitmap. */
  ghost predicate Scanned(lens: seq<nat>, fill: seq<bool>, c: Cursor, out: seq<Piece>, begin: nat, b: nat, prev: nat,
          cur: nat, skip: bool) {
    && begin <= b <= prev <= cur && CursorOk(lens, c) && Position(lens, c) == prev
    && Filled(fill, begin, b, true) && Filled(fill, prev, cur, skip)
    && Covers(lens, fill, out, b, prev)
  }

  lemma CoversNothing(lens: seq<nat>, fill: seq<bool>, out: seq<Piece>, b: nat, out': seq<Piece>, b': nat)
    requires Covers(lens, fill, out, b, b) && Targets(lens, out') == Targets(lens, out)
    ensures Covers(lens, fill, out', b', b')
  {
    hide Targets;
  }

  /** The bitmap changes at `cur`: the stretch before it goes to the caller, to scrap, or, at the
      beginning of the part, nowhere. */
  method EndStretch(lens: seq<nat>, fill: seq<bool>, c0: Cursor, out0: seq<Piece>, ghost begin: nat, b0: nat, prev: nat,
          cur: nat,
                    skip: bool, scrapLen: nat) returns (c: Cursor, out: seq<Piece>, b: nat)
    requires Scanned(lens, fill, c0, out0, begin, b0, prev, cur, skip) && scrapLen > 0
    requires Start(lens, |lens|) == |fill| && cur <= |fill|
    ensures Scanned(lens, fill, c, out, begin, b, cur, cur, !skip)
  {
    hide Targets, Position, Covers;
    b := b0;
    if cur == prev {
      c, out := c0, out0;
    } else if prev == b && skip {
      b := cur;
      c, out := AddIov(lens, c0, cur - prev, true, 0, out0);
      assert Targets(lens, out0) + [] == Targets(lens, out0);
      CoversNothing(lens, fill, out0, prev, out, cur);
    } else {
      c, out := AddIov(lens, c0, cur - prev, skip, scrapLen, out0);
      CoversMore(lens, fill, out0, b, prev, out, cur, skip);
    }
  }

  /** One part of a read that continues in a lower layer: its range is trimmed at both ends to what is
      not filled, and inside of it filled granules go to scrap. */
  method SkipPart(lens: seq<nat>, fill: seq<bool>, g: nat, c0: Cursor, begin: nat, end: nat, scrapLen: nat)
      returns (c: Cursor, out: seq<Piece>, b: nat, e: nat)
    requires begin < end <= |fill| && Aligned(g, begin) && Aligned(g, end) && Uniform(fill, g) && scrapLen > 0
    requires Start(lens, |lens|) == |fill| && CursorOk(lens, c0) && Position(lens, c0) == begin
    ensures begin <= b <= e <= end && CursorOk(lens, c) && Position(lens, c) == end
    ensures Covers(lens, fill, out, b, e) && Filled(fill, begin, b, true) && Filled(fill, e, end, true)
  {
    c, out, b := c0, [], begin;
    var prev: nat, cur: nat, skipPrev := begin, begin, true;
    assert Covers(lens, fill, out, b, prev);
    hide Targets, Covers, Position, Uniform, Aligned, CursorOk, Start;
    while cur < end
      invariant cur <= end && Aligned(g, cur) && Scanned(lens, fill, c, out, begin, b, prev, cur, skipPrev)
      invariant cur > begin ==> cur > prev
    {
      var skip := fill[cur];
      if skipPrev != skip {
        c, out, b := EndStretch(lens, fill, c, out, begin, b, prev, cur, skipPrev, scrapLen);
        skipPrev := skip;
        prev := cur;
      }
      NextGranule(fill, g, prev, cur, end, skip);
      cur := cur + g;
    }
    assert cur > prev;
    if skipPrev {
      var out' := out;
      c, out' := AddIov(lens, c, end - prev, true, 0, out);
      e := prev;
    } else {
      var out' := out;
      c, out' := AddIov(lens, c, cur - prev, false, scrapLen, out);
      CoversMore(lens, fill, out, b, prev, out', cur, false);
      out := out';
      e := end;
    }
  }

  lemma NextGranule(fill: seq<bool>, g: nat, prev: nat, cur: nat, end: nat, skip: bool)
    requires Aligned(g, cur) && Aligned(g, end) && prev <= cur < end <= |fill| && Uniform(fill, g)
    requires Filled(fill, prev, cur, skip) && fill[cur] == skip
    ensures cur + g <= end && Aligned(g, cur + g) && Filled(fill, prev, cur + g, skip)
  {
    AlignedGap(g, cur, end);
    AlignedSum(g, cur, g);
    AlignedSum(g, 0, g);
  }

  // ----- the whole request

  /** A part of the request: the stripe that it lies in, its range relative to the start of the request,
      and its buffer list. */
  datatype Part = Part(stripe: nat, begin: nat, end: nat, out: seq<Piece>)

  ghost predicate PartOk(lens: seq<nat>, fill: seq<bool>, offset: nat, bs: nat, x: Part) {
    && Aligned(bs, x.stripe) && x.stripe <= offset + x.begin && offset + x.end <= x.stripe + bs
    && Covers(lens, fill, x.out, x.begin, x.end)
  }

  /** Byte `q` of the request is in one of the parts. */
  ghost predicate InParts(parts: seq<Part>, q: nat) {
    exists i :: 0 <= i < |parts| && parts[i].begin <= q < parts[i].end
  }

  /** The first `at` bytes of the request are sliced: the parts are in order, each is right, and
      whatever is left out of them is filled already. */
  ghost predicate Sliced(lens: seq<nat>, fill: seq<bool>, offset: nat, bs: nat, parts: seq<Part>, at: nat) {
    && at <= |fill|
    && (forall i :: 0 <= i < |parts| ==> PartOk(lens, fill, offset, bs, parts[i]) && parts[i].end <= at)
    && (forall i, j :: 0 <= i < j < |parts| ==> parts[i].end <= parts[j].begin)
    && (forall q :: 0 <= q < at && !fill[q] ==> InParts(parts, q))
  }

  lemma SlicedMore(lens: seq<nat>, fill: seq<bool>, offset: nat, bs: nat, parts: seq<Part>, at: nat, x: Part, at': nat)
    requires Sliced(lens, fill, offset, bs, parts, at) && PartOk(lens, fill, offset, bs, x)
    requires at <= x.begin <= x.end <= at' <= |fill| && Filled(fill, at, x.begin, true)
    requires Filled(fill, x.end, at', true)
    ensures Sliced(lens, fill, offset, bs, parts + [x], at')
  {
    hide PartOk;
    var parts' := parts + [x];
    forall q | 0 <= q < at' && !fill[q] ensures InParts(parts', q) {
      if q < at {
        assert InParts(parts, q);
        var i :| 0 <= i < |parts| && parts[i].begin <= q < parts[i].end;
        assert parts'[i].begin <= q < parts'[i].end;
      } else {
        assert x.begin <= q < x.end;
        assert parts'[|parts|] == x;
      }
    }
  }

  /** A part without skipping takes its whole range. */
  method WholePart(lens: seq<nat>, ghost fill: seq<bool>, c0: Cursor, begin: nat, end: nat) returns (c: Cursor,
          out: seq<Piece>)
    requires begin <= end <= |fill| && Filled(fill, 0, |fill|, false)
    requires Start(lens, |lens|) == |fill| && CursorOk(lens, c0) && Position(lens, c0) == begin
    ensures CursorOk(lens, c) && Position(lens, c) == end && Covers(lens, fill, out, begin, end)
  {
    c, out := AddIov(lens, c0, end - begin, false, 0, []);
    CoversMore(lens, fill, [], begin, begin, out, end, false);
  }

  /** `slice_rw` for requests with data. Without skipping nothing is filled and the parts together take
      all buffers in order; with skipping every byte that is not filled goes to its own place in the
      caller's buffers, and every filled one to scrap or nowhere. */
  method SliceRw(offset: nat, bs: nat, g: nat, lens: seq<nat>, fill: seq<bool>, skip: bool, scrapLen: nat)
      returns (parts: seq<Part>)
    requires Aligned(g, offset) && Aligned(g, |fill|) && Aligned(g, bs) && bs > 0 && Start(lens, |lens|) == |fill|
    requires if skip then |fill| > 0 && Uniform(fill, g) && scrapLen > 0 else Filled(fill, 0, |fill|, false)
    ensures Sliced(lens, fill, offset, bs, parts, |fill|)
  {
    var len := |fill|;
    var first := Floor(offset, bs);
    var last := if len > 0 then Floor(offset + len - 1, bs) else first;
    var c := Cursor(0, 0);
    var at: nat := 0;
    parts := [];
    var stripe: nat := first;
    assert Sliced(lens, fill, offset, bs, parts, 0);
    LastAligned(first, last, offset, len, bs);
    hide Sliced, Position, Aligned, Covers, Uniform, CursorOk;
    while stripe <= last
      invariant at <= len && Sliced(lens, fill, offset, bs, parts, at) && CursorOk(lens, c) && Position(lens, c) == at
      invariant Aligned(bs, stripe) && Aligned(g, at)
      invariant offset + at == if stripe <= offset then offset
                               else if stripe < offset + len then stripe else offset + len
      invariant stripe > last ==> stripe >= offset + len
      decreases last + bs - stripe
    {
      var begin := if offset < stripe then stripe - offset else 0;
      var end := if offset + len > stripe + bs then stripe + bs - offset else len;
      var out, b, e;
      EndAligned(g, bs, offset, len, stripe, end);
      StripeInside(stripe, last, offset, len, bs);
      if skip {
        c, out, b, e := SkipPart(lens, fill, g, c, begin, end, scrapLen);
      } else {
        c, out := WholePart(lens, fill, c, begin, end);
        b, e := begin, end;
      }
      SlicedMore(lens, fill, offset, bs, parts, at, Part(stripe, b, e, out), end);
      parts := parts + [Part(stripe, b, e, out)];
      at := end;
      NextStripe(bs, stripe, last);
      stripe := stripe + bs;
    }
  }

  lemma LastAligned(first: nat, last: nat, offset: nat, len: nat, bs: nat)
    requires bs > 0 && first == Floor(offset, bs) && last == if len > 0 then Floor(offset + len - 1, bs) else first
    ensures first <= last && Aligned(bs, first) && Aligned(bs, last) && last + bs >= offset + len
    ensures first <= offset < first + bs && (len > 0 ==> last < offset + len)
  {
    if last < first { AlignedGap(bs, last, first); }
  }

  lemma EndAligned(g: nat, bs: nat, offset: nat, len: nat, stripe: nat, end: nat)
    requires Aligned(g, offset) && Aligned(g, len) && Aligned(g, bs) && Aligned(bs, stripe)
    requires end == len || offset + end == stripe + bs
    ensures Aligned(g, end)
  {
    hide Aligned;
    AlignedTrans(g, bs, stripe);
    AlignedSum(g, stripe, bs);
    AlignedSum(g, offset, end);
  }

  lemma StripeInside(stripe: nat, last: nat, offset: nat, len: nat, bs: nat)
    requires stripe <= last && (len > 0 ==> last < offset + len)
    ensures len > 0 ==> stripe < offset + len
  {
  }

  lemma NextStripe(bs: nat, stripe: nat, last: nat)
    requires Aligned(bs, stripe) && Aligned(bs, last) && stripe <= last
    ensures Aligned(bs, stripe + bs) && (stripe + bs > last ==> stripe == last)
  {
    AlignedSum(bs, stripe, bs);
    AlignedSum(bs, 0, bs);
    if stripe < last { AlignedGap(bs, stripe, last); }
  }
}
