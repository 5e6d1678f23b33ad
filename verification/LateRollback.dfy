/** A run of the store in which a rollback is journaled but not carried out, because a new write is in flight
    when its journal write ends. After a restart the versions below that write are missing. */
module LateRollback {
  import opened Basics
  import opened Overlay
  import opened Versions
  import opened Counters
  import opened Stability
  import opened Reads
  import opened Store
  import Replayed

  const BIG := Dirty(1, BigWrite, Synced, false, 0, 0, 2, 1)
  const QUEUED := Dirty(2, SmallWrite, InFlight, false, 0, 0, 1, 0)
  const SMALL := Dirty(2, SmallWrite, Synced, false, 0, 0, 1, 2)

  /** The journal in the end. */
  const LOG := [Replayed.JBig(BIG, false), Replayed.JRollback(0), Replayed.JSmall(SMALL, false)]

  ghost predicate Shows(st: Store, s: seq<Dirty>)
    reads st
  {
    st.Valid() && 0 in st.db && st.db[0] == Obj(s, None)
  }

  /** A big write of the whole object is synced. */
  method Synced1() returns (st: Store)
    ensures fresh(st) && Shows(st, [BIG])
  {
    hide Tied, StackOk, KeepsRipe;
    st := new Store();
    var e := st.Enqueue(0, false, true, 0, false, 0, 2);
    IndexAt(st.db[0], 0);
    st.SubmitBig(0, 1, 0);
    IndexAt(st.db[0], 0);
    st.WriteEntry(0, 1, 1);
    IndexAt(st.db[0], 0);
    st.Complete(0, 1, true);
    assert st.db[0].stack == [BIG];
  }

  /** Its rollback is accepted, a small write is enqueued over it, and then the rollback is marked: nothing goes. */
  method Missed(st: Store)
    requires Shows(st, [BIG])
    modifies st
    ensures Shows(st, [BIG, QUEUED])
  {
    hide Tied, StackOk, KeepsRipe;
    var v := RollbackVerdict(st.db[0].stack, 0, 0, false);
    assert v == Todo;
    var e := st.Enqueue(0, false, false, 0, false, 0, 1);
    assert st.db[0].stack == [BIG, QUEUED];
    KeptIs(st.db[0].stack, 2, 0);
    var done := st.FinishRollback(0, 0);
    assert st.db[0].stack == [BIG, QUEUED];
  }

  /** The small write is journaled and synced. */
  method Finished(st: Store)
    requires Shows(st, [BIG, QUEUED])
    modifies st
    ensures Shows(st, [BIG, SMALL])
  {
    hide Tied, StackOk, KeepsRipe;
    IndexAt(st.db[0], 1);
    st.WriteEntry(0, 2, 2);
    IndexAt(st.db[0], 1);
    st.Complete(0, 2, true);
    assert st.db[0].stack == [BIG, SMALL];
  }

  lemma Alone(d: Dirty)
    ensures Replayed.Emplace([], d) == [d]
  {
  }

  lemma Undone()
    ensures Replayed.RolledBack([BIG], 0) == []
  {
    var x := [BIG];
    assert x[..|x| - 1] == [];
  }

  lemma Replays()
    ensures Replayed.ReplayLog(LOG, None) == [SMALL]
  {
    hide Replayed.Emplace, Replayed.RolledBack, Replayed.MarkStable;
    var first, second := LOG[..2][..1], LOG[..2];
    assert first[..0] == [];
    Alone(BIG);
    assert Replayed.ReplayLog(first, None) == [BIG];
    Undone();
    assert Replayed.ReplayLog(second, None) == [];
    Alone(SMALL);
  }

  lemma BothReadable()
    ensures Exists(Visible([BIG, SMALL], 2), false) && Readable(Visible([BIG, SMALL], 2), false, 0, 2)
  {
    assert [BIG, SMALL][..1] == [BIG] && [BIG][..0] == [];
    assert Visible([BIG], 2) == [] + [BIG];
    var v := Visible([BIG, SMALL], 2);
    assert v == [BIG] + [SMALL];
    hide Visible;
    assert Front(v) == [BIG] && Last(v) == SMALL;
    assert Grounded(Front(v), false);
  }

  lemma OneNotReadable(s: seq<Dirty>)
    requires s == [SMALL]
    ensures Exists(Visible(s, 2), false) && !Readable(Visible(s, 2), false, 0, 2)
  {
    assert Visible(s[..|s| - 1], 2) == [] && VisibleTo(s[0], 2);
    var v := Visible(s, 2);
    assert v == [s[0]];
    hide Visible;
    assert Front(v) == [] && Last(v) == SMALL;
    assert !Grounded([], false) && !OnTop([], 1);
    assert !Grounded(v, false) && !OnTop(v, 1);
  }

  /** In the store a read of the object still finds both writes; what a restart makes of the journal has only
      the small one, and the read trips over an assertion. */
  method RestartAsserts(dev: Devices) returns (before: ReadResult, after: ReadResult)
    ensures before.Found? && after == Asserted
  {
    hide StackOk, Tied, Visible, Versions.Replay, Readable, Replayed.ReplayLog;
    var st := Synced1();
    Missed(st);
    Finished(st);
    var s := st.db[0].stack;
    BothReadable();
    ReplayExists(dev, 2, Visible(s, 2), None);
    before := DequeueRead(dev, 2, s, None, 2, 0, 2);
    var back := Replayed.ReplayLog(LOG, None);
    Replays();
    OneNotReadable(back);
    ReplayExists(dev, 2, Visible(back, 2), None);
    after := DequeueRead(dev, 2, back, None, 2, 0, 2);
  }
}
