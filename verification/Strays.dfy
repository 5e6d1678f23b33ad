/** A run with two restarts after which an acknowledged delete is unstable, and a rollback undoes it. */
module Strays {
  import opened Basics
  import opened Overlay
  import opened Versions
  import opened Flush
  import opened Replayed
  import opened Mirror
  import opened Marking
  import opened Placing
  import opened Deletes
  import opened Disorder
  import opened Recovery
  import opened Runs

  // ----- the object: blocks of one granule

  const DEV := Devices([9], [5, 6, 7])

  const D1 := Dirty(1, BigWrite, Synced, false, 0, 0, 1, 0)
  const D2 := Dirty(2, BigWrite, Synced, false, 1, 0, 1, 0)
  const D3 := Dirty(3, BigWrite, Synced, false, 2, 0, 1, 0)
  const D4 := Dirty(4, Delete, Synced, false, 0, 0, 0, 0)

  const PLAN := Plan([], 0, Some(0), false, true, true, 0, 1)
  const COPY := Clean(1, 0, [true])

  function Kept(d: Dirty, at: nat, mark: nat): Ver { Ver(d.(state := Stable), at, mark) }

  // Version 1 is written and flushed.
  const LOG1 := [JBig(D1, true)]
  const WRITTEN := Object(LOG1, 0, [Kept(D1, 0, 1)], 0, None, Idle, {})
  const FLUSHED := Object(LOG1, 0, [Kept(D1, 0, 1)], 1, Some(COPY), Idle, {})

  // Versions 2 and 3 are written, the higher one first, and stabilized. Then the object is deleted.
  const LOG2 := LOG1 + [JBig(D3, false)]
  const LOG3 := LOG2 + [JBig(D2, false)]
  const LOG4 := LOG3 + [JStable(3)]
  const LOG5 := LOG4 + [JDelete(D4)]
  const HIGH := Object(LOG2, 0, [Kept(D1, 0, 1), Ver(D3, 1, 0)], 1, Some(COPY), Idle, {2})
  const BOTH := Object(LOG3, 0, [Kept(D1, 0, 1), Ver(D2, 2, 0), Ver(D3, 1, 0)], 1, Some(COPY), Idle, {})
  const STABLE := Object(LOG4, 0, [Kept(D1, 0, 2), Kept(D2, 2, 2), Kept(D3, 1, 2)], 1, Some(COPY), Idle, {})
  const HISTORY := [Kept(D1, 0, 2), Kept(D2, 2, 2), Kept(D3, 1, 2), Kept(D4, 4, 0)]
  const DELETED := Object(LOG5, 0, HISTORY, 1, Some(COPY), Idle, {})

  // After the first restart only the delete is left, so the journal can be trimmed beyond version 3.
  const RESTARTED := Object(LOG5, 0, HISTORY, 3, Some(COPY), Idle, {})
  const TRIMMED := Object(LOG5, 2, HISTORY, 3, Some(COPY), Idle, {})

  // ----- version 1

  lemma SubmitOne()
    ensures Next(DEV, 1, NewObject, Submit(1), DEV, NewObject.(pend := {1}))
  {
    assert {} + {1} == {1};
  }

  lemma WriteOne()
    ensures Next(DEV, 1, NewObject.(pend := {1}), Write(D1, true), DEV, WRITTEN)
  {
    var o := NewObject.(pend := {1});
    var s' := Insert([], D1, true, 0);
    assert s'[Place([], 1)] == Entered([], D1, true, 0);
    assert s' == [Kept(D1, 0, 1)];
    assert {1} - {1} == {} && [] + [JBig(D1, true)] == LOG1;
  }

  lemma PlanOne()
    ensures Describes(PLAN, 1, Dirties(WRITTEN.s[0..1]), None)
  {
    var stack := Dirties(WRITTEN.s[0..1]);
    assert stack == [D1.(state := Stable)];
    CollectBig(PLAN, 1, stack, None, 0);
  }

  lemma BeginOne()
    ensures Next(DEV, 1, WRITTEN, BeginFlush(1, PLAN), DEV, WRITTEN.(phase := Copying(1, PLAN)))
  {
    hide Describes;
    PlanOne();
  }

  lemma CommitOne()
    ensures Next(DEV, 1, WRITTEN.(phase := Copying(1, PLAN)), CommitEntry(COPY), DEV,
                 WRITTEN.(phase := Committed(1, Some(COPY))))
  {
  }

  lemma ForgetOne()
    ensures Next(DEV, 1, WRITTEN.(phase := Committed(1, Some(COPY))), Forget, DEV, FLUSHED)
  {
  }

  // ----- versions 2 and 3

  lemma SubmitTwo()
    ensures Next(DEV, 1, FLUSHED, Submit(2), DEV, FLUSHED.(pend := {2}))
    ensures Next(DEV, 1, FLUSHED.(pend := {2}), Submit(3), DEV, FLUSHED.(pend := {2, 3}))
  {
    assert {} + {2} == {2} && {2} + {3} == {2, 3};
  }

  lemma InsertThree()
    ensures Place(FLUSHED.s, 3) == 1 && Insert(FLUSHED.s, D3, false, 1) == HIGH.s
  {
    var s := FLUSHED.s;
    assert Place(s, 3) == 1;
    var s' := Insert(s, D3, false, 1);
    assert s'[1] == Entered(s, D3, false, 1) && s'[0] == Beneath(s, 0, false, 1);
  }

  lemma HigherFirst()
    ensures Next(DEV, 1, FLUSHED.(pend := {2, 3}), Write(D3, false), DEV, HIGH)
  {
    hide Insert, Place;
    InsertThree();
    assert {2, 3} - {3} == {2};
  }

  lemma InsertTwo()
    ensures Place(HIGH.s, 2) == 1 && Insert(HIGH.s, D2, false, 2) == BOTH.s
  {
    var s := HIGH.s;
    assert Front(s) == [s[0]];
    assert Place([s[0]], 2) == 1;
    assert Place(s, 2) == 1;
    var s' := Insert(s, D2, false, 2);
    assert s'[1] == Entered(s, D2, false, 2) && s'[0] == Beneath(s, 0, false, 2) && s'[1 + 1] == s[1];
  }

  lemma LowerSecond()
    ensures Next(DEV, 1, HIGH, Write(D2, false), DEV, BOTH)
  {
    hide Insert, Place;
    InsertTwo();
    assert {2} - {2} == {};
  }

  lemma StabilizeThree()
    ensures Next(DEV, 1, BOTH, Stabilize(2), DEV, STABLE)
  {
    var s := BOTH.s;
    assert Open(s, 0) && Open(s, 1) && Open(s, 2);
    assert StabilizedAt(s, 2) == STABLE.s;
  }

  lemma RemoveObject()
    ensures Next(DEV, 1, STABLE, Remove(D4), DEV, DELETED)
  {
    hide Removed, Admissible, Exists, OnTop;
    DeleteOnTop();
    DeleteFits();
  }

  lemma DeleteOnTop()
    ensures Removed(STABLE, D4) == DELETED
  {
    var s := STABLE.s;
    assert Raise(s, 4, 0) == s;
    assert WithDelete(s, D4, 4) == HISTORY;
  }

  lemma DeleteFits()
    ensures Admissible(DEV, 1, STABLE, D4) && Exists(STABLE.Memory(), true) && OnTop(STABLE.s, D4.version)
  {
    hide Admissible, Exists;
    NoBlockFits(DEV, 1, STABLE, D4);
    LastStands();
  }

  lemma LastStands()
    ensures Exists(STABLE.Memory(), true)
  {
    hide Dirties;
    var part := STABLE.s[1..];
    assert |part| == 2 && part[1] == Kept(D3, 1, 2);
    assert Dirties(part)[1] == part[1].d;
  }

  /** An entry without a block of its own fits anywhere. */
  lemma NoBlockFits(dev: Devices, size: nat, o: Object, d: Dirty)
    requires o.m <= |o.s| && Fresh(d) && d.End() <= size && d.kind != BigWrite
    ensures Admissible(dev, size, o, d)
  {
  }

  // ----- the restarts

  lemma WholeReplay()
    ensures ReplayLog(LOG5, Some(1)) == [D4.(state := Stable)]
  {
    hide ReplayLog, MarkStable;
    var c: Option<nat> := Some(1);
    assert LOG1 == [] + [JBig(D1, true)];
    ReplayNone(c);
    ReplayMore([], JBig(D1, true), c);
    ReplayMore(LOG1, JBig(D3, false), c);
    ReplayMore(LOG2, JBig(D2, false), c);
    ReplayMore(LOG3, JStable(3), c);
    ReplayMore(LOG4, JDelete(D4), c);
    assert Emplace([], D3) == [] + [D3] == [D3];
    EmplaceTwo(D2, D3);
    MarkBoth();
    OverStable();
  }

  lemma MarkBoth()
    ensures MarkStable([D2, D3], 3) == [Marked(D3)]
  {
    var x := [D2, D3];
    assert IndexOf(x, 3) == 1;
    assert From(x[1 := Marked(D3)], 1) == [Marked(D3)];
  }

  lemma OverStable()
    ensures ReplayEntry([Marked(D3)], Some(1), JDelete(D4)) == [D4.(state := Stable)]
  {
    AppendTwo(Marked(D3), D4);
    var x := [Marked(D3), D4];
    assert IndexOf(x, 4) == 1;
    assert Forward(x, 1) == 1;
    assert From(x[1 := Marked(D4)], 1) == [Marked(D4)];
  }

  lemma TailReplay()
    ensures LOG5[2..] == [JBig(D2, false), JStable(3), JDelete(D4)]
    ensures ReplayLog(LOG5[2..], Some(1)) == [D2, D4]
  {
    StrayBelowDelete(D2, D4);
  }

  /** Versions 2 and 3 were stable below delete 4 and the entry of version 3 is trimmed: a restart over
      version 1 finds version 2 unstable and therefore the delete, too. */
  lemma StrayBelowDelete(d2: Dirty, d4: Dirty)
    requires Fresh(d2) && d2.version == 2 && d2.kind == BigWrite && Fresh(d4) && d4.version == 4 && d4.kind == Delete
    ensures ReplayLog([JBig(d2, false), JStable(3), JDelete(d4)], Some(1)) == [d2, d4]
  {
    ReplayThree(JBig(d2, false), JStable(3), JDelete(d4), Some(1));
    FirstBig(d2, false, Some(1));
    DeleteOver(d2, d4, 1);
  }

  lemma RestartsAtDelete(t: nat)
    requires t <= 4
    ensures Cut(HISTORY, t, Some(COPY), 3)
  {
    assert IsVersion(HISTORY[0], COPY) && Hides(HISTORY[3]);
  }

  lemma FirstRestart()
    ensures Next(DEV, 1, DELETED, Crash(3), DEV, RESTARTED)
  {
    WholeReplay();
    assert LOG5[0..] == LOG5;
    RestartsAtDelete(0);
    assert Reloaded(DELETED)[0].version == HISTORY[3].d.version;
  }

  lemma TrimJournal()
    ensures Next(DEV, 1, RESTARTED, Trim(2), DEV, TRIMMED)
  {
  }

  lemma SecondRestart()
    ensures Reloaded(TRIMMED) == [D2, D4]
    ensures Next(DEV, 1, TRIMMED, Crash(3), DEV, TRIMMED)
  {
    TailReplay();
    RestartsAtDelete(2);
    assert Reloaded(TRIMMED)[1].version == HISTORY[3].d.version;
  }

  lemma RollbackReplay()
    ensures RolledBack([D2, D4], 1) == []
    ensures ReplayLog(LOG5[2..] + [JRollback(1)], Some(1)) == []
  {
    TailReplay();
    ReplayMore(LOG5[2..], JRollback(1), Some(1));
    assert [D2, D4][..1] == [D2] && [D2][..0] == [];
    assert RolledBack([], 1) == [];
    assert RolledBack([D2], 1) == [];
  }

  /** A run that ends with the given devices and object. */
  ghost predicate Reaches(ms: seq<Moment>, steps: seq<Step>, dev: Devices, o: Object) {
    Run(1, ms, steps) && Last(ms) == Moment(dev, o)
  }

  lemma GoOn(ms: seq<Moment>, steps: seq<Step>, dev: Devices, o: Object, step: Step, dev': Devices, o': Object)
    returns (ms': seq<Moment>, steps': seq<Step>)
    requires Reaches(ms, steps, dev, o) && o.m <= |o.s| && o.t <= |o.log| && Next(dev, 1, o, step, dev', o')
    ensures Reaches(ms', steps', dev', o') && steps' != [] && Last(steps') == step
  {
    hide Next;
    ms', steps' := ms + [Moment(dev', o')], steps + [step];
    forall i | 0 <= i < |steps'|
      ensures && ms'[i].o.m <= |ms'[i].o.s| && ms'[i].o.t <= |ms'[i].o.log|
              && Next(ms'[i].dev, 1, ms'[i].o, steps'[i], ms'[i + 1].dev, ms'[i + 1].o)
    {
      if i < |steps| { assert ms'[i] == ms[i] && ms'[i + 1] == ms[i + 1] && steps'[i] == steps[i]; }
    }
  }

  lemma ReachFlushed() returns (ms: seq<Moment>, steps: seq<Step>)
    ensures Reaches(ms, steps, DEV, FLUSHED)
  {
    hide Next;
    ms, steps := [Moment(DEV, NewObject)], [];
    SubmitOne();
    WriteOne();
    BeginOne();
    CommitOne();
    ForgetOne();
    ms, steps := GoOn(ms, steps, DEV, NewObject, Submit(1), DEV, NewObject.(pend := {1}));
    ms, steps := GoOn(ms, steps, DEV, NewObject.(pend := {1}), Write(D1, true), DEV, WRITTEN);
    ms, steps := GoOn(ms, steps, DEV, WRITTEN, BeginFlush(1, PLAN), DEV, WRITTEN.(phase := Copying(1, PLAN)));
    ms, steps := GoOn(ms, steps, DEV, WRITTEN.(phase := Copying(1, PLAN)), CommitEntry(COPY), DEV,
                      WRITTEN.(phase := Committed(1, Some(COPY))));
    ms, steps := GoOn(ms, steps, DEV, WRITTEN.(phase := Committed(1, Some(COPY))), Forget, DEV, FLUSHED);
  }

  lemma ReachDeleted() returns (ms: seq<Moment>, steps: seq<Step>)
    ensures Reaches(ms, steps, DEV, DELETED)
  {
    hide Next, Reaches;
    ms, steps := ReachFlushed();
    SubmitTwo();
    HigherFirst();
    LowerSecond();
    StabilizeThree();
    RemoveObject();
    ms, steps := GoOn(ms, steps, DEV, FLUSHED, Submit(2), DEV, FLUSHED.(pend := {2}));
    ms, steps := GoOn(ms, steps, DEV, FLUSHED.(pend := {2}), Submit(3), DEV, FLUSHED.(pend := {2, 3}));
    ms, steps := GoOn(ms, steps, DEV, FLUSHED.(pend := {2, 3}), Write(D3, false), DEV, HIGH);
    ms, steps := GoOn(ms, steps, DEV, HIGH, Write(D2, false), DEV, BOTH);
    ms, steps := GoOn(ms, steps, DEV, BOTH, Stabilize(2), DEV, STABLE);
    ms, steps := GoOn(ms, steps, DEV, STABLE, Remove(D4), DEV, DELETED);
  }

  /** All of it as a run. At the end the object is deleted, and `dirty_db` has the delete as an unstable
      version over another one. It accepts a rollback to version 1, after which the object is back. */
  lemma StrayRun() returns (ms: seq<Moment>, steps: seq<Step>)
    ensures Run(1, ms, steps) && Last(ms) == Moment(DEV, TRIMMED) && steps != [] && Last(steps) == Crash(3)
    ensures Newest(DEV, 1, TRIMMED) == None && Reloaded(TRIMMED) == [D2, D4]
    ensures Replay(DEV, 1, ReplayLog(LOG5[2..] + [JRollback(1)], Some(1)), Base(DEV, 1, Some(COPY))) == Some([5])
  {
    hide Next, ReplayLog;
    ms, steps := ReachDeleted();
    FirstRestart();
    TrimJournal();
    SecondRestart();
    ms, steps := GoOn(ms, steps, DEV, DELETED, Crash(3), DEV, RESTARTED);
    ms, steps := GoOn(ms, steps, DEV, RESTARTED, Trim(2), DEV, TRIMMED);
    ms, steps := GoOn(ms, steps, DEV, TRIMMED, Crash(3), DEV, TRIMMED);
    RollbackReplay();
    assert TRIMMED.Memory() == [D4.(state := Stable)];
    assert CleanBytes(DEV, 1, COPY) == [5];
  }
}
