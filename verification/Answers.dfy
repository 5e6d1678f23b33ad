/** What a read returns, entry by entry: the newest finished version at or below the requested one decides
    about its range, the next one about the rest, and the clean copy about what is left. */
module Answers {
  import opened Basics
  import opened Overlay
  import opened Versions
  import opened Reads

  /** The stack without entry `k`. */
  function Without(s: seq<Dirty>, k: nat): seq<Dirty>
    requires k < |s|
  {
    s[..k] + s[k + 1..]
  }

  lemma {:induction false} VisibleConcat(a: seq<Dirty>, b: seq<Dirty>, version: nat)
    ensures Visible(a + b, version) == Visible(a, version) + Visible(b, version)
    decreases |b|
  {
    if b == [] {
      assert a + b == a;
    } else {
      assert (a + b)[..|a + b| - 1] == a + b[..|b| - 1];
      VisibleConcat(a, b[..|b| - 1], version);
    }
  }

  lemma {:induction false} NoneVisible(s: seq<Dirty>, version: nat)
    requires forall i :: 0 <= i < |s| ==> !VisibleTo(s[i], version)
    ensures Visible(s, version) == []
    decreases |s|
  {
    if s != [] { NoneVisible(s[..|s| - 1], version); }
  }

  lemma OneVisible(d: Dirty, version: nat)
    ensures Visible([d], version) == if VisibleTo(d, version) then [d] else []
  {
    var s := [d];
    assert s[..|s| - 1] == [] && Visible([], version) == [];
  }

  lemma VisibleAround(s: seq<Dirty>, version: nat, k: nat)
    requires k < |s|
    ensures Visible(s, version)
         == Visible(s[..k], version) + (if VisibleTo(s[k], version) then [s[k]] else []) + Visible(s[k + 1..], version)
    ensures Visible(Without(s, k), version) == Visible(s[..k], version) + Visible(s[k + 1..], version)
  {
    assert s == s[..k] + [s[k]] + s[k + 1..];
    VisibleConcat(s[..k] + [s[k]], s[k + 1..], version);
    VisibleConcat(s[..k], [s[k]], version);
    OneVisible(s[k], version);
    VisibleConcat(s[..k], s[k + 1..], version);
  }

  /** A write that is not finished has no part in any answer, whether it waits, is in flight or is submitted. */
  lemma UnfinishedIgnored(dev: Devices, size: nat, dirty: seq<Dirty>, clean: Option<Clean>, version: nat, offset: nat,
          len: nat, k: nat)
    requires offset + len <= size && k < |dirty| && dirty[k].state in {WaitDel, WaitBig, InFlight, Submitted}
    ensures Answer(dev, size, dirty, clean, version, offset, len)
         == Answer(dev, size, Without(dirty, k), clean, version, offset, len)
  {
    hide Visible, Replay, Base, Readable, Exists;
    VisibleAround(dirty, version, k);
    assert Visible(dirty[..k], version) + [] == Visible(dirty[..k], version);
  }

  /** Nor has a version above the requested one. */
  lemma NewerIgnored(dev: Devices, size: nat, dirty: seq<Dirty>, clean: Option<Clean>, version: nat, offset: nat,
          len: nat, k: nat)
    requires offset + len <= size && k < |dirty| && dirty[k].version > version
    ensures Answer(dev, size, dirty, clean, version, offset, len)
         == Answer(dev, size, Without(dirty, k), clean, version, offset, len)
  {
    hide Visible, Replay, Base, Readable, Exists;
    VisibleAround(dirty, version, k);
    assert Visible(dirty[..k], version) + [] == Visible(dirty[..k], version);
  }

  /** Entry `k` is the newest finished one at or below the requested version. */
  predicate NewestAt(dirty: seq<Dirty>, version: nat, k: nat) {
    && k < |dirty| && dirty[k].version <= version && dirty[k].state in {Written, Synced, Stable}
    && forall i :: k < i < |dirty| ==>
         dirty[i].version > version || dirty[i].state in {WaitDel, WaitBig, InFlight, Submitted}
  }

  lemma NewestLast(dirty: seq<Dirty>, version: nat, k: nat)
    requires NewestAt(dirty, version, k)
    ensures Visible(dirty, version) == Visible(dirty[..k], version) + [dirty[k]]
    ensures Visible(Without(dirty, k), version) == Visible(dirty[..k], version)
  {
    VisibleAround(dirty, version, k);
    NoneVisible(dirty[k + 1..], version);
  }

  /** Where the byte at position `p` of a write is. */
  function StoredByte(dev: Devices, d: Dirty, p: int): Granule {
    if d.kind == BigWrite then dev.At(Data, d.location + p) else dev.At(Journal, d.location + (p - d.offset))
  }

  /** A finished delete hides the object. */
  lemma DeletedNotFound(dev: Devices, size: nat, dirty: seq<Dirty>, clean: Option<Clean>, version: nat, offset: nat,
          len: nat, k: nat)
    requires offset + len <= size && NewestAt(dirty, version, k) && dirty[k].kind == Delete
    ensures Answer(dev, size, dirty, clean, version, offset, len) == NotFound
  {
    NewestLast(dirty, version, k);
    var all := Visible(dirty, version);
    assert all[..|all| - 1] == Visible(dirty[..k], version);
  }

  /** A finished write, synced or not, is found: with its own version, its own bytes in its range and, for a big
      write, zeroes around it. It is always found for a range that it holds itself. */
  lemma WrittenIsFound(dev: Devices, size: nat, dirty: seq<Dirty>, clean: Option<Clean>, version: nat, offset: nat,
          len: nat, k: nat)
    requires offset + len <= size && NewestAt(dirty, version, k) && dirty[k].kind != Delete
    ensures var d, r := dirty[k], Answer(dev, size, dirty, clean, version, offset, len);
            && r != NotFound
            && (d.kind == BigWrite || (d.offset <= offset && offset + len <= d.offset + d.len) ==> r.Found?)
            && (r.Found? ==>
                  && r.version == d.version && |r.buf| == len
                  && forall p :: offset <= p < offset + len ==>
                       && (d.offset <= p < d.offset + d.len ==> r.buf[p - offset] == StoredByte(dev, d, p))
                       && (d.kind == BigWrite && !(d.offset <= p < d.offset + d.len) ==> r.buf[p - offset] == 0))
  {
    NewestLast(dirty, version, k);
    var d, all, below := dirty[k], Visible(dirty, version), Visible(dirty[..k], version);
    assert all[..|all| - 1] == below && Last(all) == d && Front(all) == below;
    ReplayExists(dev, size, all, clean);
    var whole := Replay(dev, size, all, Base(dev, size, clean));
    assert whole == Apply(dev, size, d, Replay(dev, size, below, Base(dev, size, clean)));
  }

  /** Outside the range of a small write the read is as it would be without that write. */
  lemma SmallOnlyInRange(dev: Devices, size: nat, dirty: seq<Dirty>, clean: Option<Clean>, version: nat, offset: nat,
          len: nat, k: nat, p: nat)
    requires offset + len <= size && NewestAt(dirty, version, k) && dirty[k].kind == SmallWrite
    requires offset <= p < offset + len && !(dirty[k].offset <= p < dirty[k].offset + dirty[k].len)
    ensures var r, r0 := Answer(dev, size, dirty, clean, version, offset, len),
                         Answer(dev, size, Without(dirty, k), clean, version, offset, len);
            r.Found? && r0.Found? ==> |r.buf| == |r0.buf| == len && r.buf[p - offset] == r0.buf[p - offset]
  {
    NewestLast(dirty, version, k);
    var d, all, below := dirty[k], Visible(dirty, version), Visible(dirty[..k], version);
    assert all[..|all| - 1] == below;
    ReplayExists(dev, size, all, clean);
    ReplayExists(dev, size, below, clean);
    var whole := Replay(dev, size, all, Base(dev, size, clean));
    assert whole == Apply(dev, size, d, Replay(dev, size, below, Base(dev, size, clean)));
  }

  /** The read of a small write ends in an assertion exactly if it asks for a position outside that write which
      cannot be read without it. */
  lemma AssertedIff(dev: Devices, size: nat, dirty: seq<Dirty>, clean: Option<Clean>, version: nat, offset: nat,
          len: nat, k: nat)
    requires offset + len <= size && NewestAt(dirty, version, k) && dirty[k].kind == SmallWrite
    ensures Answer(dev, size, dirty, clean, version, offset, len) == Asserted <==>
            exists p: nat :: offset <= p < offset + len && !(dirty[k].offset <= p < dirty[k].offset + dirty[k].len)
              && !Answer(dev, size, Without(dirty, k), clean, version, p, 1).Found?
  {
    NewestLast(dirty, version, k);
    var d, all, below := dirty[k], Visible(dirty, version), Visible(dirty[..k], version);
    assert all[..|all| - 1] == below && Last(all) == d && Front(all) == below;
    ReplayExists(dev, size, all, clean);
    ReplayExists(dev, size, below, clean);
    forall p: nat | offset <= p < offset + len
      ensures Answer(dev, size, Without(dirty, k), clean, version, p, 1).Found? <==>
              Grounded(below, clean.Some?) || OnTop(below, p)
    {
      FoundAt(dev, size, Without(dirty, k), clean, version, p);
    }
    assert Grounded(all, clean.Some?) == Grounded(below, clean.Some?);
    if Answer(dev, size, dirty, clean, version, offset, len) == Asserted {
      var p: nat :| offset <= p < offset + len && !OnTop(all, p);
      assert !Answer(dev, size, Without(dirty, k), clean, version, p, 1).Found?;
    } else {
      assert Readable(all, clean.Some?, offset, offset + len);
      forall p: nat | offset <= p < offset + len && !(d.offset <= p < d.offset + d.len)
        ensures Answer(dev, size, Without(dirty, k), clean, version, p, 1).Found?
      {
        assert Grounded(all, clean.Some?) || OnTop(all, p);
      }
    }
  }

  lemma {:induction false} NothingUnder(s: seq<Dirty>, clean: bool, p: int)
    ensures !Exists(s, clean) ==> !Grounded(s, clean) && !OnTop(s, p)
  {
  }

  lemma FoundAt(dev: Devices, size: nat, s: seq<Dirty>, clean: Option<Clean>, version: nat, p: nat)
    requires p < size
    ensures Answer(dev, size, s, clean, version, p, 1).Found? <==>
            Grounded(Visible(s, version), clean.Some?) || OnTop(Visible(s, version), p)
  {
    ReplayExists(dev, size, Visible(s, version), clean);
    NothingUnder(Visible(s, version), clean.Some?, p);
  }

  /** When no dirty version is finished at or below the requested one, the clean copy answers: its block where its
      bitmap is set, zeroes elsewhere. */
  lemma CleanAnswers(dev: Devices, size: nat, dirty: seq<Dirty>, clean: Option<Clean>, version: nat, offset: nat,
          len: nat)
    requires offset + len <= size && (clean.Some? ==> |clean.value.bitmap| == size)
    requires forall i :: 0 <= i < |dirty| ==>
               dirty[i].version > version || dirty[i].state in {WaitDel, WaitBig, InFlight, Submitted}
    ensures var r := Answer(dev, size, dirty, clean, version, offset, len);
            if clean.None? then r == NotFound
            else
              && r.Found? && r.version == clean.value.version && |r.buf| == len
              && forall p :: offset <= p < offset + len ==>
                   r.buf[p - offset] == if clean.value.bitmap[p] then dev.At(Data, clean.value.location + p) else 0
  {
    NoneVisible(dirty, version);
  }
}
