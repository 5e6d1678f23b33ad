/** The queue of client operations: every operation carries the number of earlier operations that it
    has to wait for, and the number is kept up to date as operations come and go. */
module OpQueue {
  import opened Basics

  datatype Opcode = Read | Write | Delete | Sync

  /** `flush` marks the write-back of a cached buffer, `immediate` a write to a pool where every write
      is durable when it completes. */
  datatype Op = Op(id: nat, opcode: Opcode, flush: bool, immediate: bool, wait: int)
  {
    predicate IsWrite() { opcode == Write || opcode == Delete }
  }

  /** Whether an earlier operation has to finish first. */
  predicate Blocks(prev: Op, op: Op, writeback: bool) {
    match op.opcode
    case Write => prev.opcode == Sync || (prev.IsWrite() && !op.flush && prev.flush)
    case Delete => prev.opcode == Sync || (prev.IsWrite() && !op.flush && prev.flush)
    case Sync => prev.opcode == Sync || (prev.IsWrite() && (!prev.immediate || writeback))
    case Read => false
  }

  /** The test that is made from the side of the operation that comes or goes. */
  predicate Affects(op: Op, next: Op, writeback: bool) {
    if op.IsWrite() then
      || (next.opcode == Sync && (!op.immediate || writeback))
      || (next.IsWrite() && op.flush && !next.flush)
    else op.opcode == Sync && (next.opcode == Sync || next.IsWrite())
  }

  lemma SameRelation(op: Op, next: Op, writeback: bool)
    ensures Affects(op, next, writeback) == Blocks(op, next, writeback)
  {
  }

  /** The number of operations of `q` that block `op`. */
  function Blockers(q: seq<Op>, op: Op, writeback: bool): nat {
    if q == [] then 0 else Blockers(q[..|q| - 1], op, writeback) + One(Blocks(q[|q| - 1], op, writeback))
  }

  /** Every counter is exact, so none is negative. */
  ghost predicate Exact(q: seq<Op>, writeback: bool) {
    forall i :: 0 <= i < |q| ==> q[i].wait == Blockers(q[..i], q[i], writeback)
  }

  lemma {:induction false} NoBlockers(q: seq<Op>, op: Op, writeback: bool, i: nat)
    requires i < |q| && Blockers(q, op, writeback) == 0
    ensures !Blocks(q[i], op, writeback)
  {
    if i < |q| - 1 { NoBlockers(q[..|q| - 1], op, writeback, i); }
  }

  lemma {:induction false} SomeBlocker(q: seq<Op>, op: Op, writeback: bool)
    requires Blockers(q, op, writeback) > 0
    ensures exists i :: 0 <= i < |q| && Blocks(q[i], op, writeback)
  {
    if !Blocks(q[|q| - 1], op, writeback) {
      SomeBlocker(q[..|q| - 1], op, writeback);
      var i :| 0 <= i < |q| - 1 && Blocks(q[..|q| - 1][i], op, writeback);
      assert Blocks(q[i], op, writeback);
    }
  }

  function Without(q: seq<Op>, i: nat): (r: seq<Op>)
    requires i < |q|
    ensures |r| == |q| - 1 && forall k :: 0 <= k < |r| ==> r[k] == if k < i then q[k] else q[k + 1]
  {
    seq(|q| - 1, k requires 0 <= k < |q| - 1 => if k < i then q[k] else q[k + 1])
  }

  lemma {:induction false} BlockersRemove(q: seq<Op>, i: nat, op: Op, writeback: bool)
    requires i < |q|
    ensures Blockers(Without(q, i), op, writeback) == Blockers(q, op, writeback) - One(Blocks(q[i], op, writeback))
  {
    var n := |q| - 1;
    var r := Without(q, i);
    if i < n {
      BlockersRemove(q[..n], i, op, writeback);
      assert r[..|r| - 1] == Without(q[..n], i);
    } else {
      assert r == q[..n];
    }
  }

  lemma {:induction false} BlockersCons(a: Op, q: seq<Op>, op: Op, writeback: bool)
    ensures Blockers([a] + q, op, writeback) == Blockers(q, op, writeback) + One(Blocks(a, op, writeback))
  {
    if q == [] {
      assert ([a] + q)[..0] == [];
    } else {
      BlockersCons(a, q[..|q| - 1], op, writeback);
      assert ([a] + q)[..|q|] == [a] + q[..|q| - 1];
    }
  }

  /** The counters play no part in who blocks whom. */
  lemma {:induction false} BlockersSame(q: seq<Op>, r: seq<Op>, op: Op, op': Op, writeback: bool)
    requires |q| == |r| && op' == op.(wait := op'.wait) && forall i :: 0 <= i < |q| ==> r[i] == q[i].(wait := r[i].wait)
    ensures Blockers(q, op, writeback) == Blockers(r, op', writeback)
    decreases |q|
  {
    if q != [] { BlockersSame(q[..|q| - 1], r[..|r| - 1], op, op', writeback); }
  }

  /** `inc_wait`: the operations of `q` from position `from` on are told that `op` comes or goes. Those
      whose counter becomes zero are returned, to be continued. */
  method IncWait(q: seq<Op>, from: nat, op: Op, inc: int, writeback: bool) returns (r: seq<Op>, ready: seq<Op>)
    requires from <= |q|
    ensures |r| == |q| && r[..from] == q[..from]
    ensures forall i :: from <= i < |q| ==>
              r[i] == q[i].(wait := q[i].wait + if Blocks(op, q[i], writeback) then inc else 0)
    ensures forall x :: x in ready ==> x in r && x.wait == 0
    ensures forall i :: from <= i < |r| && r[i].wait == 0 && Blocks(op, q[i], writeback) ==> r[i] in ready
  {
    r, ready := q, [];
    if op.opcode == Read {
      return;
    }
    for i := from to |q|
      invariant |r| == |q| && r[..from] == q[..from] && r[i..] == q[i..]
      invariant forall k :: from <= k < i ==>
                  r[k] == q[k].(wait := q[k].wait + if Blocks(op, q[k], writeback) then inc else 0)
      invariant forall x :: x in ready ==> x in r[..i] && x.wait == 0
      invariant forall k :: from <= k < i && r[k].wait == 0 && Blocks(op, q[k], writeback) ==> r[k] in ready
    {
      SameRelation(op, q[i], writeback);
      assert r[i] == r[i..][0] == q[i..][0] == q[i];
      ghost var r0, ready0 := r, ready;
      if Affects(op, q[i], writeback) {
        r := r[i := r[i].(wait := r[i].wait + inc)];
        if r[i].wait == 0 {
          ready := ready + [r[i]];
        }
      }
      assert r[i + 1..] == q[i + 1..] by { assert r[i + 1..] == r0[i..][1..] && q[i + 1..] == q[i..][1..]; }
      assert r[..i + 1] == r0[..i] + [r[i]];
    }
  }

  /** Operations that take part in the counting. */
  predicate Tracked(op: Op, writeback: bool) { !op.immediate || writeback }

  /** The queue as it is after `op` has left position `i`, counters included. */
  ghost predicate Left(q: seq<Op>, i: nat, r: seq<Op>, writeback: bool)
    requires i < |q|
  {
    && |r| == |q| - 1
    && (forall k :: 0 <= k < i ==> r[k] == q[k])
    && forall k :: i <= k < |r| ==> r[k] == q[k + 1].(wait := q[k + 1].wait - One(Blocks(q[i], q[k + 1], writeback)))
  }

  lemma RestLeft(q: seq<Op>, i: nat, r: seq<Op>, writeback: bool)
    requires i < |q| && |r| == |q| - 1 && r[..i] == Without(q, i)[..i]
    requires forall k :: i <= k < |r| ==>
               var next := Without(q, i)[k];
               r[k] == next.(wait := next.wait + if Blocks(q[i], next, writeback) then -1 else 0)
    ensures Left(q, i, r, writeback)
  {
    hide Blocks;
    forall k | 0 <= k < i ensures r[k] == q[k] { assert r[k] == r[..i][k] == Without(q, i)[..i][k]; }
  }

  lemma LeftExact(q: seq<Op>, i: nat, r: seq<Op>, writeback: bool)
    requires i < |q| && Exact(q, writeback) && Left(q, i, r, writeback)
    ensures Exact(r, writeback)
  {
    hide Blocks, Blockers;
    forall k | 0 <= k < |r| ensures r[k].wait == Blockers(r[..k], r[k], writeback) {
      if k < i {
        assert r[..k] == q[..k];
      } else {
        assert q[k + 1].wait == Blockers(q[..k + 1], q[k + 1], writeback);
        BlockersRemove(q[..k + 1], i, q[k + 1], writeback);
        BlockersSame(Without(q[..k + 1], i), r[..k], q[k + 1], r[k], writeback);
      }
    }
  }

  lemma LeftTracked(q: seq<Op>, i: nat, r: seq<Op>, writeback: bool)
    requires i < |q| && Left(q, i, r, writeback) && Exact(r, writeback)
    requires forall k :: 0 <= k < |q| ==> Tracked(q[k], writeback)
    ensures forall k :: 0 <= k < |r| ==> r[k].wait >= 0 && Tracked(r[k], writeback)
  {
    hide Blocks, Blockers;
    forall k | 0 <= k < |r| ensures Tracked(r[k], writeback) {
      assert Tracked(q[if k < i then k else k + 1], writeback);
    }
  }

  lemma NoneAhead(op: Op, writeback: bool)
    ensures Blockers([], op, writeback) == 0
  {
  }

  lemma ConsExact(op: Op, q: seq<Op>, r: seq<Op>, writeback: bool)
    requires Exact(q, writeback) && op.wait == 0 && |r| == |q| + 1 && r[0] == op
    requires forall k :: 0 <= k < |q| ==> r[k + 1] == q[k].(wait := q[k].wait + One(Blocks(op, q[k], writeback)))
    ensures Exact(r, writeback)
  {
    hide Blocks, Blockers;
    NoneAhead(op, writeback);
    forall k | 0 <= k < |r| ensures r[k].wait == Blockers(r[..k], r[k], writeback) {
      if k > 0 {
        assert q[k - 1].wait == Blockers(q[..k - 1], q[k - 1], writeback);
        BlockersCons(op, q[..k - 1], q[k - 1], writeback);
        BlockersSame([op] + q[..k - 1], r[..k], q[k - 1], r[k], writeback);
      }
    }
  }

  lemma PushExact(q: seq<Op>, op: Op, writeback: bool)
    requires Exact(q, writeback) && op.wait == Blockers(q, op, writeback)
    ensures Exact(q + [op], writeback)
  {
    var r := q + [op];
    forall i | 0 <= i < |r| ensures r[i].wait == Blockers(r[..i], r[i], writeback) {
      assert r[..i] == if i < |q| then q[..i] else q;
    }
  }

  /** `calc_wait`: counts from the back of the queue to its front. */
  method CountBlockers(q: seq<Op>, op: Op, writeback: bool) returns (wait: nat)
    ensures wait == Blockers(q, op, writeback)
  {
    wait := 0;
    var rest := q;
    while rest != []
      invariant wait + Blockers(rest, op, writeback) == Blockers(q, op, writeback)
    {
      if Blocks(rest[|rest| - 1], op, writeback) {
        wait := wait + 1;
      }
      rest := rest[..|rest| - 1];
    }
  }

  class Queue {
    const writeback: bool
    var q: seq<Op>

    ghost predicate Valid()
      reads this
    {
      Exact(q, writeback) && forall i :: 0 <= i < |q| ==> Tracked(q[i], writeback)
    }

    constructor (writeback: bool)
      ensures Valid() && q == [] && this.writeback == writeback
    {
      this.writeback := writeback;
      q := [];
    }

    /** Appends an operation and counts what it has to wait for. It starts at once exactly when no
        queued operation blocks it. */
    method Enqueue(op: Op) returns (started: bool)
      requires Valid() && Tracked(op, writeback)
      modifies this
      ensures Valid() && |q| == |old(q)| + 1 && q[..|old(q)|] == old(q) && q[|old(q)|] == op.(wait := q[|old(q)|].wait)
      ensures started <==> forall i :: 0 <= i < |old(q)| ==> !Blocks(old(q)[i], op, writeback)
      ensures started <==> q[|old(q)|].wait == 0
      ensures op.opcode == Read ==> started
      ensures op.opcode == Sync ==>
                (started <==> forall i :: 0 <= i < |old(q)| ==> old(q)[i].opcode == Read)
      ensures op.opcode == Write || op.opcode == Delete ==>
                (started <==> forall i :: 0 <= i < |old(q)| ==>
                   || old(q)[i].opcode == Read
                   || ((old(q)[i].opcode == Write || old(q)[i].opcode == Delete) && (op.flush || !old(q)[i].flush)))
    {
      var wait := CountBlockers(q, op, writeback);
      if wait > 0 { SomeBlocker(q, op, writeback); }
      forall i | 0 <= i < |q| && wait == 0 ensures !Blocks(q[i], op, writeback) { NoBlockers(q, op, writeback, i); }
      started := wait == 0;
      var op' := op.(wait := wait);
      BlockersSame(q, q, op, op', writeback);
      PushExact(q, op', writeback);
      assert (q + [op'])[..|q|] == q;
      q := q + [op'];
    }

    /** Removes a finished operation and continues those that waited for it alone. */
    method Erase(i: nat) returns (ready: seq<Op>)
      requires Valid() && i < |q|
      modifies this
      ensures Valid() && Left(old(q), i, q, writeback)
      ensures forall x :: x in ready ==> x in q && x.wait == 0
      ensures forall k :: i <= k < |q| && q[k].wait == 0 && old(q)[k + 1].wait != 0 ==> q[k] in ready
      ensures forall k :: 0 <= k < |q| ==> q[k].wait >= 0
    {
      hide Blocks, Exact, Tracked, Blockers;
      var op, rest := q[i], Without(q, i);
      ghost var q0 := q;
      var r;
      r, ready := IncWait(rest, i, op, -1, writeback);
      RestLeft(q, i, r, writeback);
      LeftExact(q, i, r, writeback);
      LeftTracked(q, i, r, writeback);
      q := r;
      forall k | i <= k < |q| && q[k].wait == 0 && q0[k + 1].wait != 0 ensures q[k] in ready {
        assert q[k] == rest[k].(wait := rest[k].wait + if Blocks(op, rest[k], writeback) then -1 else 0);
      }
    }

    /** Puts an operation in front of the queue: everything that it blocks has to wait once more. */
    method Unshift(op: Op)
      requires Valid() && Tracked(op, writeback) && op.wait == 0
      modifies this
      ensures Valid() && |q| == |old(q)| + 1 && q[0] == op
      ensures forall k :: 0 <= k < |old(q)| ==>
                q[k + 1] == old(q)[k].(wait := old(q)[k].wait + One(Blocks(op, old(q)[k], writeback)))
    {
      ghost var q0 := q;
      var r, ready := IncWait([op] + q, 1, op, 1, writeback);
      assert r[0] == r[..1][0];
      assert forall k :: 0 <= k < |q0| ==>
        r[k + 1] == q0[k].(wait := q0[k].wait + One(Blocks(op, q0[k], writeback))) by {
        assert forall k :: 0 <= k < |q0| ==> ([op] + q0)[k + 1] == q0[k];
      }
      ConsExact(op, q, r, writeback);
      q := r;
    }
  }

  /** The barrier: an operation whose counter is zero has nothing before it that it must not overtake.
      A sync starts only when no earlier write or sync is queued, a write only when no earlier sync
      is, and a write of new data only when no earlier write-back is. */
  lemma Barrier(q: seq<Op>, writeback: bool, i: nat, k: nat)
    requires Exact(q, writeback) && k < i < |q| && q[i].wait == 0 && Tracked(q[k], writeback)
    ensures q[i].opcode == Sync ==> !q[k].IsWrite() && q[k].opcode != Sync
    ensures q[i].IsWrite() ==> q[k].opcode != Sync && (q[i].flush || !(q[k].IsWrite() && q[k].flush))
  {
    NoBlockers(q[..i], q[i], writeback, k);
  }

  /** Positions before `i` that hold back operation `i`, by opcodes and flags alone. */
  function Ahead(q: seq<Op>, writeback: bool, i: nat): set<nat>
    requires i < |q|
  {
    match q[i].opcode
    case Read => {}
    case Sync =>
      set k: nat | k < i && (q[k].opcode == Sync
        || ((q[k].opcode == Write || q[k].opcode == Delete) && (writeback || !q[k].immediate)))
    case Write =>
      set k: nat | k < i && (q[k].opcode == Sync
        || ((q[k].opcode == Write || q[k].opcode == Delete) && q[k].flush && !q[i].flush))
    case Delete =>
      set k: nat | k < i && (q[k].opcode == Sync
        || ((q[k].opcode == Write || q[k].opcode == Delete) && q[k].flush && !q[i].flush))
  }

  lemma {:induction false} BlockersSize(q: seq<Op>, op: Op, writeback: bool, s: set<nat>)
    requires forall k: nat :: k in s <==> k < |q| && Blocks(q[k], op, writeback)
    ensures Blockers(q, op, writeback) == |s|
  {
    if q == [] {
      assert s == {};
    } else {
      var n: nat := |q| - 1;
      BlockersSize(q[..n], op, writeback, s - {n});
    }
  }

  /** Every counter is the number of operations that hold this one back: none for a read; for a sync the earlier
      syncs and the writes that count; for a write-back the earlier syncs; for a write of new data these and the
      earlier write-backs. */
  lemma CounterIs(q: seq<Op>, writeback: bool, i: nat)
    requires Exact(q, writeback) && i < |q|
    ensures q[i].wait == |Ahead(q, writeback, i)|
    ensures q[i].opcode == Read ==> q[i].wait == 0
  {
    var s := Ahead(q, writeback, i);
    forall k: nat ensures k in s <==> k < |q[..i]| && Blocks(q[..i][k], q[i], writeback) {}
    BlockersSize(q[..i], q[i], writeback, s);
  }

  /** A read holds nobody back: counters are right with and without it. */
  lemma ReadHoldsNobody(q: seq<Op>, writeback: bool, i: nat)
    requires Exact(q, writeback) && i < |q| && q[i].opcode == Read
    ensures Exact(Without(q, i), writeback)
  {
    SilentErase(q, i, writeback);
  }

  // ----- operations that do not take part

  /** Nothing is queued that a write of new data has to wait for: no sync and no write-back. */
  predicate NothingPending(q: seq<Op>) {
    forall k :: 0 <= k < |q| ==> q[k].opcode != Sync && !(q[k].IsWrite() && q[k].flush)
  }

  lemma NothingPendingIff(q: seq<Op>, op: Op, writeback: bool)
    requires op.IsWrite() && !op.flush
    ensures Blockers(q, op, writeback) == 0 <==> NothingPending(q)
  {
    if Blockers(q, op, writeback) == 0 {
      forall k | 0 <= k < |q| ensures q[k].opcode != Sync && !(q[k].IsWrite() && q[k].flush) {
        NoBlockers(q, op, writeback, k);
      }
    } else {
      SomeBlocker(q, op, writeback);
    }
  }

  /** A write to a pool with immediate commit is queued with counter zero when there is no write-back
      cache. That is exact if and only if no sync and no write-back is queued. */
  lemma UntrackedEnqueue(q: seq<Op>, op: Op, writeback: bool)
    requires Exact(q, writeback) && op.IsWrite() && !op.flush && op.wait == 0 && !Tracked(op, writeback)
    ensures Exact(q + [op], writeback) <==> NothingPending(q)
  {
    var r := q + [op];
    assert r[..|q|] == q && r[|q|] == op;
    forall i | 0 <= i < |q| ensures r[i].wait == Blockers(r[..i], r[i], writeback) { assert r[..i] == q[..i]; }
    NothingPendingIff(q, op, writeback);
  }

  /** Otherwise its counter becomes negative when the sync is done, and that is an assertion. */
  lemma ImmediateWriteAfterSync(q: seq<Op>, i: nat, op: Op, r: seq<Op>, writeback: bool)
    requires i < |q| && q[i].opcode == Sync && op.IsWrite() && op.wait == 0 && !Tracked(op, writeback)
    requires Left(q + [op], i, r, writeback)
    ensures r != [] && r[|r| - 1] == op.(wait := -1)
  {
    assert (q + [op])[|q|] == op;
  }

  /** The shortest such run: a sync, an immediate write, and the sync is done. */
  method CounterGoesNegative() returns (q: seq<Op>)
    ensures |q| == 1 && q[0].opcode == Write && q[0].wait == -1
  {
    var queue := new Queue(false);
    var started := queue.Enqueue(Op(1, Sync, false, false, 0));
    assert started;
    var write := Op(2, Write, false, true, 0);
    var ready;
    q, ready := IncWait([write], 0, queue.q[0], -1, false);
  }

  lemma UntrackedBlocks(q: seq<Op>, i: nat, writeback: bool)
    requires i < |q| && q[i].IsWrite() && !Tracked(q[i], writeback)
    ensures (forall k :: i < k < |q| ==> !Blocks(q[i], q[k], writeback)) <==>
            (q[i].flush ==> forall k :: i < k < |q| && q[k].IsWrite() ==> q[k].flush)
  {
  }

  /** Such a write leaves without telling anyone. That is right if and only if it is not a write-back, or
      no write of new data is queued behind it. */
  lemma UntrackedErase(q: seq<Op>, i: nat, writeback: bool)
    requires Exact(q, writeback) && i < |q| && q[i].IsWrite() && !Tracked(q[i], writeback)
    ensures Exact(Without(q, i), writeback) <==>
            (q[i].flush ==> forall k :: i < k < |q| && q[k].IsWrite() ==> q[k].flush)
  {
    hide Exact, Blockers;
    SilentErase(q, i, writeback);
    UntrackedBlocks(q, i, writeback);
  }

  /** Leaving without telling anyone is right if and only if it blocks no later operation. */
  lemma SilentErase(q: seq<Op>, i: nat, writeback: bool)
    requires Exact(q, writeback) && i < |q|
    ensures Exact(Without(q, i), writeback) <==> forall k :: i < k < |q| ==> !Blocks(q[i], q[k], writeback)
  {
    hide Blocks, Blockers;
    var r := Without(q, i);
    forall k | i <= k < |r|
      ensures Blockers(r[..k], r[k], writeback) == q[k + 1].wait - One(Blocks(q[i], q[k + 1], writeback))
      ensures r[k] == q[k + 1]
    {
      assert q[k + 1].wait == Blockers(q[..k + 1], q[k + 1], writeback);
      BlockersRemove(q[..k + 1], i, q[k + 1], writeback);
      assert r[..k] == Without(q[..k + 1], i);
    }
    forall k | 0 <= k < i ensures r[k].wait == Blockers(r[..k], r[k], writeback) {
      assert r[..k] == q[..k] && r[k] == q[k];
    }
    if Exact(r, writeback) {
      forall k | i < k < |q| ensures !Blocks(q[i], q[k], writeback) {
        assert r[k - 1].wait == Blockers(r[..k - 1], r[k - 1], writeback);
      }
    }
  }
}
