/** A run of the store after which a read ends in an assertion: a small write is let go by a big write
    further down while the big write right under it, over a delete, is still in flight. */
module EarlyUnblock {
  import opened Basics
  import opened Overlay
  import opened Versions
  import opened Counters
  import opened Stability
  import opened Reads
  import opened Waiting
  import opened Store

  function Entry(version: nat, kind: Kind, state: State, instant: bool, location: int, len: nat, sector: nat): Dirty {
    Dirty(version, kind, state, instant, location, 0, len, sector)
  }

  // The entries of object 0 in the course of the run.

  const QUEUED := [
    Entry(1, BigWrite, InFlight, true, 0, 2, 0), Entry(2, Delete, InFlight, false, 0, 0, 0),
    Entry(3, BigWrite, InFlight, true, 0, 1, 0), Entry(4, SmallWrite, WaitBig, true, 0, 1, 0)]

  const SUBMITTED := [
    Entry(1, BigWrite, State.Submitted, true, 0, 2, 1), Entry(2, Delete, State.Submitted, false, 0, 0, 1),
    Entry(3, BigWrite, State.Submitted, true, 1, 1, 0), Entry(4, SmallWrite, WaitBig, true, 0, 1, 0)]

  const RELEASED := [
    Entry(1, BigWrite, Stable, true, 0, 2, 1), Entry(2, Delete, State.Submitted, false, 0, 0, 1),
    Entry(3, BigWrite, State.Submitted, true, 1, 1, 0), Entry(4, SmallWrite, InFlight, true, 0, 1, 0)]

  const DELETED := [
    Entry(1, BigWrite, Stable, true, 0, 2, 1), Entry(2, Delete, Stable, false, 0, 0, 1),
    Entry(3, BigWrite, State.Submitted, true, 1, 1, 0), Entry(4, SmallWrite, InFlight, true, 0, 1, 0)]

  const FINISHED := [
    Entry(1, BigWrite, Stable, true, 0, 2, 1), Entry(2, Delete, Stable, false, 0, 0, 1),
    Entry(3, BigWrite, State.Submitted, true, 1, 1, 0), Entry(4, SmallWrite, Synced, true, 0, 1, 2)]

  /** The entries of object 0. */
  ghost predicate Shows(st: Store, s: seq<Dirty>)
    reads st
  {
    st.Valid() && 0 in st.db && st.db[0] == Obj(s, None)
  }

  /** Four writes are queued, the last one waiting for the third. */
  method Queued() returns (st: Store)
    ensures fresh(st) && st.Orderly() && st.c.alloc == {}
    ensures Shows(st, QUEUED)
  {
    hide Waiting.Disciplined, Tied, StackOk;
    st := new Store();
    var e := st.Enqueue(0, false, true, 0, true, 0, 2);
    assert Shows(st, [Entry(1, BigWrite, InFlight, true, 0, 2, 0)]);
    e := st.Enqueue(0, true, false, 0, false, 0, 0);
    assert Shows(st, [Entry(1, BigWrite, InFlight, true, 0, 2, 0), Entry(2, Delete, InFlight, false, 0, 0, 0)]);
    e := st.Enqueue(0, false, false, 0, true, 0, 1);
    assert Shows(st, [Entry(1, BigWrite, InFlight, true, 0, 2, 0), Entry(2, Delete, InFlight, false, 0, 0, 0),
                      Entry(3, BigWrite, InFlight, true, 0, 1, 0)]);
    e := st.Enqueue(0, false, false, 0, true, 0, 1);
  }

  /** Version 1 is journaled, versions 2 and 3 are submitted. */
  method Submitted(st: Store)
    requires st.Orderly() && st.c.alloc == {}
    requires Shows(st, QUEUED)
    modifies st
    ensures st.Orderly()
    ensures Shows(st, SUBMITTED)
  {
    hide Waiting.Disciplined, Tied, StackOk;
    IndexAt(st.db[0], 0);
    st.SubmitBig(0, 1, 0);
    IndexAt(st.db[0], 2);
    st.SubmitBig(0, 3, 1);
    IndexAt(st.db[0], 1);
    st.WriteEntry(0, 2, 1);
    IndexAt(st.db[0], 0);
    st.WriteEntry(0, 1, 1);
    assert st.db[0].stack
         == SUBMITTED;
  }

  /** Version 1 is durable: version 4 goes on, although version 3 is not, and now the wrong writes wait. */
  method Released(st: Store)
    requires st.Orderly()
    requires Shows(st, SUBMITTED)
    modifies st
    ensures !st.Orderly()
    ensures Shows(st, RELEASED)
  {
    hide Waiting.Disciplined, Tied, StackOk;
    ghost var x := st.db[0];
    IndexAt(x, 0);
    assert x.stack[3].state == WaitBig && !NothingBetween(x.stack, 0, 3) by { assert !IsSynced(x.stack[2].state); }
    assert !FreeToGo(x.stack, 0);
    st.Complete(0, 1, true);
    assert st.db[0].stack
         == RELEASED;
  }

  /** The delete and version 4 are finished before version 3 is. */
  method Finished(st: Store)
    requires Shows(st, RELEASED)
    modifies st
    ensures Shows(st, FINISHED)
  {
    hide Waiting.Disciplined, Tied, StackOk;
    IndexAt(st.db[0], 1);
    st.Complete(0, 2, true);
    assert st.db[0].stack == DELETED;
    IndexAt(st.db[0], 3);
    st.WriteEntry(0, 4, 2);
    IndexAt(st.db[0], 3);
    assert st.db[0].stack[2].state != Stable;
    st.Complete(0, 4, true);
    assert st.db[0].stack == FINISHED;
  }

  lemma NotReadable(s: seq<Dirty>)
    requires s == FINISHED
    ensures Exists(Visible(s, 4), false) && !Readable(Visible(s, 4), false, 0, 2)
  {
    assert s[..3][..2] == s[..2] && s[..2][..1] == s[..1] && s[..1][..0] == [];
    assert Visible(s[..1], 4) == [] + [s[0]];
    assert Visible(s[..2], 4) == [s[0]] + [s[1]];
    assert Visible(s[..3], 4) == [s[0]] + [s[1]];
    var v := Visible(s, 4);
    assert v == [s[0], s[1]] + [s[3]];
    hide Visible;
    assert Front(v) == [s[0], s[1]] && Last(v) == s[3];
    assert !Grounded(Front(v), false) && !OnTop(Front(v), 1);
    assert !Grounded(v, false) && !OnTop(v, 1);
  }

  /** The newest version of the object is then not found and not served: the read of its two granules
      trips over an assertion. */
  method ReadAsserts(dev: Devices) returns (r: ReadResult)
    ensures r == Asserted
  {
    hide StackOk, Tied, Waiting.Disciplined, Visible, Replay, Readable;
    var st := Queued();
    Submitted(st);
    Released(st);
    Finished(st);
    var s := st.db[0].stack;
    NotReadable(s);
    ReplayExists(dev, 2, Visible(s, 4), None);
    r := DequeueRead(dev, 2, s, None, 4, 0, 2);
  }
}
