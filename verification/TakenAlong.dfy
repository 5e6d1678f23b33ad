/** A version that only `dirty_db` holds stable is flushed, and rolled back after a restart in between:
    when the remaining versions still read the same. */
module TakenAlong {
  import opened Basics
  import opened Overlay
  import opened Versions
  import opened Flush
  import opened Replayed
  import opened Mirror
  import opened Marking
  import opened Placing
  import opened Deletes
  import opened Disorder
  import opened Tracking
  import opened Recovery
  import opened Runs
  import opened Strays

  // ----- what a torn copy shows

  /** Where a granule of the object is read from: a place on the data device or something else. */
  datatype Origin = OnData(pos: int) | Elsewhere

  function OriginOf(stack: seq<Dirty>, clean: Option<Clean>, p: int): Origin
    decreases |stack|
  {
    if stack == [] then
      (if clean.Some? && clean.value.Bit(p) then OnData(clean.value.location + p) else Origin.Elsewhere)
    else
      var d := Last(stack);
      match d.kind
      case Delete => Origin.Elsewhere
      case BigWrite => if d.InRange(p) then OnData(d.location + p) else Origin.Elsewhere
      case SmallWrite => if d.InRange(p) then Origin.Elsewhere else OriginOf(Front(stack), clean, p)
  }

  lemma {:induction false} OriginByte(dev: Devices, dev': Devices, size: nat, stack: seq<Dirty>, clean: Option<Clean>,
          p: int)
    requires 0 <= p < size && dev'.journal == dev.journal
    ensures var o := OriginOf(stack, clean, p);
            o.OnData? ==> ByteOf(Replay(dev, size, stack, Base(dev, size, clean)), p) == dev.At(Data, o.pos)
    ensures var o := OriginOf(stack, clean, p);
            (o.OnData? ==> dev'.At(Data, o.pos) == dev.At(Data, o.pos)) ==>
              ByteOf(Replay(dev', size, stack, Base(dev', size, clean)), p)
                == ByteOf(Replay(dev, size, stack, Base(dev, size, clean)), p)
    decreases |stack|
  {
    if stack != [] { OriginByte(dev, dev', size, Front(stack), clean, p); }
  }

  /** The granule is read from where the copies go. */
  ghost predicate Exposed(dev: Devices, stack: seq<Dirty>, clean: Option<Clean>, loc: int, v: seq<CopyItem>, p: int) {
    var o := OriginOf(stack, clean, p);
    o.OnData? && 0 <= o.pos < |dev.data| && Covered(v, o.pos - loc)
  }

  /** However the copies are torn, the versions read as before. */
  ghost predicate Unharmed(dev: Devices, size: nat, stack: seq<Dirty>, clean: Option<Clean>, loc: int,
                           v: seq<CopyItem>) {
    forall dev': Devices :: Torn(dev, dev', loc, v) ==>
      Replay(dev', size, stack, Base(dev', size, clean)) == Replay(dev, size, stack, Base(dev, size, clean))
  }

  lemma UnharmedIf(dev: Devices, dev': Devices, size: nat, stack: seq<Dirty>, clean: Option<Clean>, loc: int,
          v: seq<CopyItem>)
    requires Torn(dev, dev', loc, v) && forall p :: 0 <= p < size ==> !Exposed(dev, stack, clean, loc, v, p)
    ensures Replay(dev', size, stack, Base(dev', size, clean)) == Replay(dev, size, stack, Base(dev, size, clean))
  {
    var a := Replay(dev, size, stack, Base(dev, size, clean));
    var b := Replay(dev', size, stack, Base(dev', size, clean));
    ReplayExists(dev, size, stack, clean);
    ReplayExists(dev', size, stack, clean);
    if a.Some? {
      forall p | 0 <= p < size ensures a.value[p] == b.value[p] {
        OriginByte(dev, dev', size, stack, clean, p);
        assert !Exposed(dev, stack, clean, loc, v, p);
      }
      assert a.value == b.value;
    }
  }

  lemma ExposedHarms(dev: Devices, size: nat, stack: seq<Dirty>, clean: Option<Clean>, loc: int, v: seq<CopyItem>,
          p: int)
    requires 0 <= p < size && Exposed(dev, stack, clean, loc, v, p)
    ensures !Unharmed(dev, size, stack, clean, loc, v)
  {
    var q := OriginOf(stack, clean, p).pos;
    var dev' := Devices(dev.journal, dev.data[q := dev.data[q] + 1]);
    assert Torn(dev, dev', loc, v);
    OriginByte(dev, dev', size, stack, clean, p);
    OriginByte(dev', dev, size, stack, clean, p);
  }

  /** A flush that is interrupted leaves any lower versions as they were, if and only if its copies do not
      go where these read from. */
  lemma UnharmedIff(dev: Devices, size: nat, stack: seq<Dirty>, clean: Option<Clean>, loc: int, v: seq<CopyItem>)
    ensures Unharmed(dev, size, stack, clean, loc, v) <==>
            forall p :: 0 <= p < size ==> !Exposed(dev, stack, clean, loc, v, p)
  {
    hide Torn, Exposed, OriginOf;
    if p :| 0 <= p < size && Exposed(dev, stack, clean, loc, v, p) {
      ExposedHarms(dev, size, stack, clean, loc, v, p);
    } else {
      forall dev': Devices | Torn(dev, dev', loc, v)
        ensures Replay(dev', size, stack, Base(dev', size, clean)) == Replay(dev, size, stack, Base(dev, size, clean))
      {
        UnharmedIf(dev, dev', size, stack, clean, loc, v);
      }
    }
  }

  // ----- a run in which it shows

  const S2 := Dirty(2, SmallWrite, Synced, false, 0, 0, 0, 0)
  const S3 := Dirty(3, SmallWrite, Synced, false, 0, 0, 1, 0)

  const SMALL1 := LOG1 + [JSmall(S2, true)]
  const SMALL2 := SMALL1 + [JSmall(S3, false)]
  const INSTANT := Object(SMALL1, 0, [Kept(D1, 0, 2), Kept(S2, 1, 2)], 1, Some(COPY), Idle, {3})
  const PLAIN := Object(SMALL2, 0, [Kept(D1, 0, 2), Kept(S2, 1, 2), Ver(S3, 2, 0)], 1, Some(COPY), Idle, {})
  const TAKEN := Object(SMALL2, 0, [Kept(D1, 0, 2), Kept(S2, 1, 2), Kept(S3, 2, 0)], 1, Some(COPY), Idle, {})

  const PLAN2 := Plan([CopyItem(0, 1, Journal, 0)], 1, None, false, true, false, 0, 0)
  const TORN := Devices([9], [9, 6, 7])

  lemma InsertInstant()
    ensures Place(FLUSHED.s, 2) == 1 && Insert(FLUSHED.s, S2, true, 1) == INSTANT.s
  {
    var s := FLUSHED.s;
    assert Place(s, 2) == 1 && Open(s, 0);
    var s' := Insert(s, S2, true, 1);
    assert s'[1] == Entered(s, S2, true, 1) && s'[0] == Beneath(s, 0, true, 1);
  }

  lemma WriteInstant()
    ensures Next(DEV, 1, FLUSHED.(pend := {2, 3}), Write(S2, true), DEV, INSTANT)
  {
    hide Journaled, Admissible, Over;
    InstantJournaled();
    InstantFits();
    InstantOver();
  }

  lemma InstantJournaled()
    ensures Journaled(FLUSHED.(pend := {2, 3}), S2, true) == INSTANT
  {
    hide Insert, Place;
    InsertInstant();
    assert {2, 3} - {2} == {3};
  }

  lemma InstantFits()
    ensures Admissible(DEV, 1, FLUSHED.(pend := {2, 3}), S2)
  {
    hide Admissible;
    NoBlockFits(DEV, 1, FLUSHED.(pend := {2, 3}), S2);
  }

  lemma InstantOver()
    ensures Over(FLUSHED.(pend := {2, 3}), 2)
  {
    hide Insert, Place, Over;
    InsertInstant();
    OverClean(FLUSHED.(pend := {2, 3}), 2);
  }

  /** With nothing dirty below, a small write comes over the clean copy. */
  lemma OverClean(o: Object, version: nat)
    requires o.m <= |o.s| && o.m == Place(o.s, version) && o.clean.Some?
    ensures Over(o, version)
  {
    assert o.s[o.m..o.m] == [];
  }

  lemma InsertPlain()
    ensures Place(INSTANT.s, 3) == 2 && Insert(INSTANT.s, S3, false, 2) == PLAIN.s
  {
    var s := INSTANT.s;
    assert Place(s, 3) == 2;
    var s' := Insert(s, S3, false, 2);
    assert s'[2] == Entered(s, S3, false, 2) && s'[0] == Beneath(s, 0, false, 2) && s'[1] == Beneath(s, 1, false, 2);
  }

  lemma WritePlain()
    ensures Next(DEV, 1, INSTANT, Write(S3, false), DEV, PLAIN)
  {
    hide Insert, Place;
    InsertPlain();
    assert INSTANT.s[1..2] == [INSTANT.s[1]];
    assert {3} - {3} == {};
  }

  lemma TakeUpper()
    ensures Next(DEV, 1, PLAIN, TakeAlong(2), DEV, TAKEN)
  {
    assert Raise(PLAIN.s, 3, 0) == TAKEN.s;
  }

  /** The plan of the flusher for both versions. */
  lemma PlanBoth()
    ensures Describes(PLAN2, 1, [S2.(state := Stable), S3.(state := Stable)], Some(COPY))
  {
    var stack := [S2.(state := Stable), S3.(state := Stable)];
    forall dev: Devices
      ensures Planned(dev, 1, PLAN2, Some(COPY), Replay(dev, 1, stack, Base(dev, 1, Some(COPY))))
    {
      assert stack[..1] == [S2.(state := Stable)];
      ImageAt(PLAN2.v, dev, 0, 0);
    }
  }

  lemma FlushBoth()
    ensures Next(DEV, 1, TAKEN, BeginFlush(3, PLAN2), DEV, TAKEN.(phase := Copying(3, PLAN2)))
  {
    hide Describes;
    PlanBoth();
    assert Dirties(TAKEN.s[1..3]) == [S2.(state := Stable), S3.(state := Stable)];
  }

  lemma CopyBoth()
    ensures var o := TAKEN.(phase := Copying(3, PLAN2)); Next(DEV, 1, o, CopyData, TORN, o)
  {
    assert PLAN2.v[0].Covers(0);
  }

  lemma SmallReplay()
    ensures ReplayLog(SMALL2, Some(1)) == [S2.(state := Stable), S3]
  {
    hide ReplayLog, MarkStable;
    var c: Option<nat> := Some(1);
    assert LOG1 == [] + [JBig(D1, true)];
    ReplayNone(c);
    ReplayMore([], JBig(D1, true), c);
    ReplayMore(LOG1, JSmall(S2, true), c);
    ReplayMore(SMALL1, JSmall(S3, false), c);
    assert Emplace([], S2) == [] + [S2] == [S2];
    MarkAlone();
    AppendTwo(S2.(state := Stable), S3);
  }

  lemma MarkAlone()
    ensures MarkStable([S2], 2) == [S2.(state := Stable)]
  {
    IndexOfLast([S2]);
    assert [S2][0 := Marked(S2)] == [Marked(S2)];
  }

  lemma RestartBoth()
    ensures var o := TAKEN.(phase := Copying(3, PLAN2));
            && Next(TORN, 1, o, Crash(1), TORN, TAKEN) && Reloaded(o) == [S2.(state := Stable), S3]
  {
    var o := TAKEN.(phase := Copying(3, PLAN2));
    SmallReplay();
    assert SMALL2[0..] == SMALL2;
    assert IsVersion(TAKEN.s[0], COPY);
    assert Reloaded(o)[0].version == TAKEN.s[1].d.version && Reloaded(o)[1].version == TAKEN.s[2].d.version;
  }

  lemma RollbackUpper()
    ensures ReplayLog(SMALL2 + [JRollback(2)], Some(1)) == [S2.(state := Stable)]
  {
    hide ReplayLog;
    var a := S2.(state := Stable);
    SmallReplay();
    ReplayMore(SMALL2, JRollback(2), Some(1));
    assert [a, S3][..1] == [a];
    assert RolledBack([a], 2) == [a];
    assert RolledBack([a, S3], 2) == [a];
  }

  /** Version 3 is taken along by version 2 and is being flushed when a restart finds it unstable. A
      rollback to version 2 is accepted, but part of version 3 is in the clean copy. */
  lemma TornRun() returns (ms: seq<Moment>, steps: seq<Step>)
    ensures Run(1, ms, steps) && Last(ms) == Moment(TORN, TAKEN) && steps != [] && Last(steps) == Crash(1)
    ensures ReplayLog(SMALL2, Some(1)) == [S2.(state := Stable), S3]
    ensures var x := ReplayLog(SMALL2 + [JRollback(2)], Some(1));
            && Replay(DEV, 1, x, Base(DEV, 1, Some(COPY))) == Some([5])
            && Replay(TORN, 1, x, Base(TORN, 1, Some(COPY))) == Some([9])
  {
    hide Next, ReplayLog;
    ms, steps := ReachFlushed();
    SubmitTwo();
    WriteInstant();
    WritePlain();
    TakeUpper();
    ms, steps := GoOn(ms, steps, DEV, FLUSHED, Submit(2), DEV, FLUSHED.(pend := {2}));
    ms, steps := GoOn(ms, steps, DEV, FLUSHED.(pend := {2}), Submit(3), DEV, FLUSHED.(pend := {2, 3}));
    ms, steps := GoOn(ms, steps, DEV, FLUSHED.(pend := {2, 3}), Write(S2, true), DEV, INSTANT);
    ms, steps := GoOn(ms, steps, DEV, INSTANT, Write(S3, false), DEV, PLAIN);
    ms, steps := GoOn(ms, steps, DEV, PLAIN, TakeAlong(2), DEV, TAKEN);
    ms, steps := EndTorn(ms, steps);
    SmallReplay();
    RollbackUpper();
    var x := [S2.(state := Stable)];
    assert x[..0] == [] && CleanBytes(DEV, 1, COPY) == [5] && CleanBytes(TORN, 1, COPY) == [9];
    assert Apply(DEV, 1, x[0], Some([5])).value == [5] && Apply(TORN, 1, x[0], Some([9])).value == [9];
  }

  lemma EndTorn(ms: seq<Moment>, steps: seq<Step>) returns (ms': seq<Moment>, steps': seq<Step>)
    requires Reaches(ms, steps, DEV, TAKEN)
    ensures Reaches(ms', steps', TORN, TAKEN) && steps' != [] && Last(steps') == Crash(1)
  {
    hide Next, ReplayLog, Reaches;
    var o := TAKEN.(phase := Copying(3, PLAN2));
    FlushBoth();
    CopyBoth();
    RestartBoth();
    ms', steps' := GoOn(ms, steps, DEV, TAKEN, BeginFlush(3, PLAN2), DEV, o);
    ms', steps' := GoOn(ms', steps', DEV, o, CopyData, TORN, o);
    ms', steps' := GoOn(ms', steps', TORN, o, Crash(1), TORN, TAKEN);
  }
}
