/** The waiting states of the entries of one object. A small write waits until the big write under it
    is durable, and writes over a delete that they are numbered below wait for its flush. As long as
    exactly those small writes wait that have to, every read can be served. */
module Waiting {
  import opened Basics
  import opened Versions
  import opened Counters
  import opened Stability
  import opened Reads

  predicate Blocked(s: State) { s == WaitBig || s == WaitDel }

  /** The nearest big write or delete below is a durable big write; without one, the clean copy counts. */
  predicate Rests(s: seq<Dirty>, clean: bool)
    decreases |s|
  {
    if s == [] then clean
    else match Last(s).kind
      case SmallWrite => Rests(Front(s), clean)
      case BigWrite => IsSynced(Last(s).state)
      case Delete => false
  }

  /** How an entry over `below` has to wait: a small write for a big one exactly if it does not rest on
      anything yet, or for a delete after another write that does. Deletes do not wait for deletes. */
  predicate WaitsRight(below: seq<Dirty>, d: Dirty, clean: bool) {
    match d.kind
    case SmallWrite =>
      if d.state == WaitDel then below != [] && Last(below).state == WaitDel
      else d.state == WaitBig <==> !Rests(below, clean)
    case BigWrite => true
    case Delete => d.state != WaitDel
  }

  predicate Disciplined(s: seq<Dirty>, clean: bool)
    decreases |s|
  {
    s == [] || (Disciplined(Front(s), clean) && WaitsRight(Front(s), Last(s), clean))
  }

  // ----- reads

  lemma {:induction false} RestsVisible(s: seq<Dirty>, clean: bool, version: nat)
    requires Rests(s, clean) && forall i :: 0 <= i < |s| ==> s[i].version <= version
    ensures Exists(Visible(s, version), clean)
    decreases |s|
  {
    if s != [] && Last(s).kind == SmallWrite {
      assert forall i :: 0 <= i < |s| - 1 ==> Front(s)[i] == s[i];
      RestsVisible(Front(s), clean, version);
    }
  }

  lemma {:induction false} VisibleBased(s: seq<Dirty>, lo: nat, clean: bool, version: nat)
    requires StackOk(s, lo, clean) && Disciplined(s, clean)
    ensures Based(Visible(s, version), clean)
    decreases |s|
  {
    if s != [] {
      VisibleBased(Front(s), lo, clean, version);
      var d, rest := Last(s), Visible(Front(s), version);
      if VisibleTo(d, version) {
        assert (rest + [d])[..|rest|] == rest;
        if d.kind == SmallWrite {
          forall i | 0 <= i < |s| - 1 ensures Front(s)[i].version <= version { StableBelow(s, lo, clean, i, |s| - 1); }
          RestsVisible(Front(s), clean, version);
        }
      }
    }
  }

  /** As long as the right writes wait, a read of any range at any version meets its assertions. */
  lemma AllReadable(x: Obj, version: nat, from: nat, to: nat)
    requires ObjOk(x) && Disciplined(x.stack, x.clean.Some?)
    ensures Readable(Visible(x.stack, version), x.clean.Some?, from, to)
  {
    VisibleBased(x.stack, CleanVersion(x.clean), x.clean.Some?, version);
    BasedReadable(Visible(x.stack, version), x.clean.Some?, from, to);
  }

  // ----- steps that neither block nor unblock

  /** A step of an entry that leaves its waiting and, for a big write, its durability as they are. */
  predicate Steady(d: Dirty, d': Dirty) {
    && d'.kind == d.kind && (Blocked(d.state) || Blocked(d'.state) ==> d'.state == d.state)
    && (d.kind == BigWrite ==> (IsSynced(d'.state) <==> IsSynced(d.state)))
  }

  ghost predicate AllSteady(s: seq<Dirty>, s': seq<Dirty>) {
    |s| == |s'| && forall i :: 0 <= i < |s| ==> Steady(s[i], s'[i])
  }

  lemma AllSteadyFront(s: seq<Dirty>, s': seq<Dirty>)
    requires s != [] && AllSteady(s, s')
    ensures AllSteady(Front(s), Front(s')) && Steady(Last(s), Last(s'))
  {
  }

  lemma {:induction false} SteadyRests(s: seq<Dirty>, s': seq<Dirty>, clean: bool)
    requires AllSteady(s, s')
    ensures Rests(s', clean) == Rests(s, clean)
    decreases |s|
  {
    if s != [] {
      AllSteadyFront(s, s');
      SteadyRests(Front(s), Front(s'), clean);
    }
  }

  lemma {:induction false} SteadyDisciplined(s: seq<Dirty>, s': seq<Dirty>, clean: bool)
    requires AllSteady(s, s')
    ensures Disciplined(s', clean) == Disciplined(s, clean)
    decreases |s|
  {
    if s != [] {
      AllSteadyFront(s, s');
      if |s| > 1 { AllSteadyFront(Front(s), Front(s')); }
      SteadyRests(Front(s), Front(s'), clean);
      SteadyDisciplined(Front(s), Front(s'), clean);
    }
  }

  lemma {:induction false} DisciplinedPrefix(s: seq<Dirty>, clean: bool, k: nat)
    requires Disciplined(s, clean) && k <= |s|
    ensures Disciplined(s[..k], clean)
    decreases |s|
  {
    if k < |s| {
      DisciplinedPrefix(Front(s), clean, k);
      assert Front(s)[..k] == s[..k];
    } else {
      assert s[..k] == s;
    }
  }

  lemma DisciplinedAt(s: seq<Dirty>, clean: bool, k: nat)
    requires Disciplined(s, clean) && k < |s|
    ensures WaitsRight(s[..k], s[k], clean)
  {
    DisciplinedPrefix(s, clean, k + 1);
    var t := s[..k + 1];
    assert Front(t) == s[..k] && Last(t) == s[k];
  }

  /** The other way round, entry by entry. */
  lemma {:induction false} DisciplinedIf(s: seq<Dirty>, clean: bool)
    requires forall k :: 0 <= k < |s| ==> WaitsRight(s[..k], s[k], clean)
    ensures Disciplined(s, clean)
    decreases |s|
  {
    if s != [] {
      hide WaitsRight;
      var t := Front(s);
      forall k | 0 <= k < |t| ensures WaitsRight(t[..k], t[k], clean) {
        assert t[k] == s[k] && t[..k] == s[..k];
      }
      DisciplinedIf(t, clean);
      var n: nat := |s| - 1;
      assert s[..n] == t && WaitsRight(s[..n], s[n], clean);
    }
  }

  // ----- a new entry

  /** A small write on top of the entry has to wait for a big one. */
  predicate HoldsUp(d: Dirty) { if d.kind == BigWrite then !IsSynced(d.state) else d.state == WaitBig }

  /** A write waits behind writes that wait for a delete; a small one also behind a big write that is
      not durable yet, and behind small ones that wait for such a write. */
  function WaitState(s: seq<Dirty>, kind: Kind): State {
    if s == [] then InFlight
    else if Last(s).state == WaitDel then WaitDel
    else if kind == SmallWrite && HoldsUp(Last(s)) then WaitBig
    else InFlight
  }

  lemma PushDisciplined(s: seq<Dirty>, clean: bool, d: Dirty)
    requires Disciplined(s, clean)
    requires d.kind == SmallWrite ==> Exists(s, clean) && d.state == WaitState(s, SmallWrite)
    requires d.kind == Delete ==> d.state != WaitDel
    ensures Disciplined(s + [d], clean)
  {
    assert Front(s + [d]) == s;
  }

  // ----- a big write becomes durable

  /** Entries above that wait for a big write go on. */
  function Unblocked(s: seq<Dirty>, from: nat): (r: seq<Dirty>)
    ensures |r| == |s|
    ensures forall k :: 0 <= k < |s| ==>
      r[k] == if k >= from && s[k].state == WaitBig then s[k].(state := InFlight) else s[k]
  {
    seq(|s|, k requires 0 <= k < |s| => if k >= from && s[k].state == WaitBig then s[k].(state := InFlight) else s[k])
  }

  lemma {:induction false} UnblockedRests(s: seq<Dirty>, from: nat, clean: bool, k: nat)
    requires k <= |s|
    ensures Rests(Unblocked(s, from)[..k], clean) == Rests(s[..k], clean)
    decreases k
  {
    if k > 0 {
      UnblockedRests(s, from, clean, k - 1);
      assert Front(s[..k]) == s[..k - 1] && Front(Unblocked(s, from)[..k]) == Unblocked(s, from)[..k - 1];
    }
  }

  /** Between the entry `i` and the small write `k` there is no big write that is not durable. */
  predicate NothingBetween(s: seq<Dirty>, i: nat, k: nat) {
    forall j :: i < j < k && j < |s| && s[j].kind == BigWrite ==> IsSynced(s[j].state)
  }

  /** What a small write rests on, when the durable big write `i` is somewhere below it. */
  lemma {:induction false} RestsOver(s: seq<Dirty>, lo: nat, clean: bool, i: nat, k: nat)
    requires StackOk(s, lo, clean) && i < k <= |s| && s[i].kind == BigWrite && IsSynced(s[i].state)
    requires Exists(s[..k], clean) && NothingBetween(s, i, k)
    ensures Rests(s[..k], clean)
    decreases k
  {
    var t := s[..k];
    assert Last(t) == s[k - 1] && Front(t) == s[..k - 1];
    if k - 1 > i && s[k - 1].kind == SmallWrite {
      StableBelow(s, lo, clean, k - 1, k - 1);
      RestsOver(s, lo, clean, i, k - 1);
    }
  }

  /** The nearest big write below `k`, if it is not durable. */
  lemma {:induction false} RestsNot(s: seq<Dirty>, lo: nat, clean: bool, k: nat) returns (g: nat)
    requires StackOk(s, lo, clean) && k <= |s| && Exists(s[..k], clean) && !Rests(s[..k], clean)
    ensures g < k && s[g].kind == BigWrite && !IsSynced(s[g].state)
    ensures forall j :: g < j < k ==> s[j].kind == SmallWrite
    decreases k
  {
    var t := s[..k];
    assert t != [] ==> Last(t) == s[k - 1] && Front(t) == s[..k - 1];
    g := k - 1;
    if s[k - 1].kind == SmallWrite {
      StableBelow(s, lo, clean, k - 1, k - 1);
      g := RestsNot(s, lo, clean, k - 1);
    }
  }

  /** The entry `i` becomes durable and nothing else changes its durability or waiting. */
  ghost predicate Durable(s: seq<Dirty>, s': seq<Dirty>, i: nat) {
    && |s| == |s'| && i < |s|
    && s[i].kind == BigWrite && s'[i].kind == BigWrite
    && !Blocked(s[i].state) && !IsSynced(s[i].state) && IsSynced(s'[i].state)
    && forall k :: 0 <= k < |s| && k != i ==> Steady(s[k], s'[k])
  }

  /** A small write below, or not waiting above, is as well off as before. */
  lemma {:induction false} DurableRests(s: seq<Dirty>, s': seq<Dirty>, i: nat, clean: bool, k: nat)
    requires Durable(s, s', i) && k <= |s|
    ensures Rests(s[..k], clean) ==> Rests(s'[..k], clean)
    ensures k <= i ==> Rests(s'[..k], clean) == Rests(s[..k], clean)
    decreases k
  {
    if k > 0 {
      DurableRests(s, s', i, clean, k - 1);
      assert Front(s[..k]) == s[..k - 1] && Front(s'[..k]) == s'[..k - 1];
      assert k - 1 != i ==> Steady(s[k - 1], s'[k - 1]);
    }
  }

  /** No small write that waits above `i` has another big write to wait for. */
  ghost predicate FreeToGo(s: seq<Dirty>, i: nat) {
    forall k :: i < k < |s| && s[k].kind == SmallWrite && s[k].state == WaitBig ==> NothingBetween(s, i, k)
  }

  lemma BetweenSame(s: seq<Dirty>, s': seq<Dirty>, i: nat, k: nat)
    requires Durable(s, s', i)
    ensures NothingBetween(s', i, k) <==> NothingBetween(s, i, k)
  {
    forall j | i < j < k && j < |s| && s[j].kind == BigWrite ensures IsSynced(s[j].state) <==> IsSynced(s'[j].state) {
      assert Steady(s[j], s'[j]);
    }
    assert forall j :: i < j < k && j < |s| ==> Steady(s[j], s'[j]);
  }

  lemma UnblockKeeps(s: seq<Dirty>, s': seq<Dirty>, lo: nat, clean: bool, i: nat, k: nat)
    requires StackOk(s, lo, clean) && StackOk(s', lo, clean) && Disciplined(s, clean) && Durable(s, s', i)
    requires k < |s| && (k > i && s[k].kind == SmallWrite && s[k].state == WaitBig ==> NothingBetween(s, i, k))
    ensures var r := Unblocked(s', i + 1); WaitsRight(r[..k], r[k], clean)
  {
    hide Disciplined, StackOk, Rests;
    DisciplinedAt(s, clean, k);
    assert k != i ==> Steady(s[k], s'[k]);
    if k > 0 && k - 1 != i { assert Steady(s[k - 1], s'[k - 1]); }
    UnblockedRests(s', i + 1, clean, k);
    DurableRests(s, s', i, clean, k);
    if k > i && s[k].kind == SmallWrite && s[k].state == WaitBig {
      BetweenSame(s, s', i, k);
      StableBelow(s', lo, clean, k, k);
      RestsOver(s', lo, clean, i, k);
    }
  }

  lemma UnblockBreaks(s: seq<Dirty>, s': seq<Dirty>, lo: nat, clean: bool, i: nat, k: nat)
    requires StackOk(s, lo, clean) && Disciplined(s, clean) && Durable(s, s', i) && i < k < |s|
    requires s[k].kind == SmallWrite && s[k].state == WaitBig && !NothingBetween(s, i, k)
    ensures !Disciplined(Unblocked(s', i + 1), clean)
  {
    hide StackOk, Rests;
    var r := Unblocked(s', i + 1);
    DisciplinedAt(s, clean, k);
    StableBelow(s, lo, clean, k, k);
    var g := RestsNot(s, lo, clean, k);
    var j :| i < j < k && s[j].kind == BigWrite && !IsSynced(s[j].state);
    assert j <= g;
    assert Steady(s[k], s'[k]);
    RestsStill(s, s', clean, i, g, k);
    UnblockedRests(s', i + 1, clean, k);
    if Disciplined(r, clean) { DisciplinedAt(r, clean, k); }
  }

  lemma {:induction false} RestsStill(s: seq<Dirty>, s': seq<Dirty>, clean: bool, i: nat, g: nat, k: nat)
    requires Durable(s, s', i) && i < g < k <= |s| && s[g].kind == BigWrite && !IsSynced(s[g].state)
    requires forall j :: g < j < k ==> s[j].kind == SmallWrite
    ensures !Rests(s'[..k], clean)
    decreases k
  {
    assert Last(s'[..k]) == s'[k - 1] && Front(s'[..k]) == s'[..k - 1];
    assert Steady(s[k - 1], s'[k - 1]);
    if k - 1 > g { RestsStill(s, s', clean, i, g, k - 1); }
  }

  /** When a big write becomes durable and everything that waits above it goes on, the right writes wait
      afterwards if and only if none of those has another unfinished big write in between. */
  lemma UnblockIff(s: seq<Dirty>, s': seq<Dirty>, lo: nat, clean: bool, i: nat)
    requires StackOk(s, lo, clean) && StackOk(s', lo, clean) && Disciplined(s, clean) && Durable(s, s', i)
    ensures Disciplined(Unblocked(s', i + 1), clean) <==> FreeToGo(s, i)
  {
    hide StackOk, Rests, Disciplined;
    var r := Unblocked(s', i + 1);
    if FreeToGo(s, i) {
      forall k | 0 <= k < |r| ensures WaitsRight(r[..k], r[k], clean) {
        UnblockKeeps(s, s', lo, clean, i, k);
      }
      DisciplinedIf(r, clean);
    } else {
      var k :| i < k < |s| && s[k].kind == SmallWrite && s[k].state == WaitBig && !NothingBetween(s, i, k);
      UnblockBreaks(s, s', lo, clean, i, k);
    }
  }

  // ----- the end of a flush

  lemma {:induction false} RestsSuffix(s: seq<Dirty>, clean: bool, n: nat)
    requires n <= |s| && forall i :: 0 <= i < n ==> s[i].state == Stable
    ensures Rests(s[..n], clean) == Grounded(s[..n], clean)
    ensures Rests(s, clean) == Rests(s[n..], Grounded(s[..n], clean))
    decreases |s|
  {
    if n < |s| {
      RestsSuffix(Front(s), clean, n);
      assert Front(s)[..n] == s[..n] && Front(s)[n..] == Front(s[n..]) && Last(s[n..]) == Last(s);
    } else {
      assert s[..n] == s && s[n..] == [];
      if s != [] {
        RestsSuffix(Front(s), clean, n - 1);
        assert Front(s)[..n - 1] == Front(s);
      }
    }
  }

  lemma {:induction false} DisciplinedSuffix(s: seq<Dirty>, clean: bool, n: nat)
    requires n <= |s| && Disciplined(s, clean) && forall i :: 0 <= i < n ==> s[i].state == Stable
    ensures Disciplined(s[n..], Grounded(s[..n], clean))
    decreases |s|
  {
    if n < |s| {
      var t := Front(s);
      DisciplinedSuffix(t, clean, n);
      RestsSuffix(t, clean, n);
      assert t[..n] == s[..n] && t[n..] == Front(s[n..]) && Last(s[n..]) == Last(s);
    } else {
      assert s[n..] == [];
    }
  }

  /** The state of an entry once the delete below it is flushed. */
  function DeleteFlushed(s: seq<Dirty>, k: nat): State
    requires k < |s|
  {
    if s[k].state != WaitDel then s[k].state
    else if exists j :: 0 <= j < k && s[j].state == WaitDel && s[j].kind == BigWrite then WaitBig else InFlight
  }

  /** Writes that waited for the flush of a delete go on; those above a big write wait for it. */
  function AfterDelete(s: seq<Dirty>): (r: seq<Dirty>)
    ensures |r| == |s| && forall k :: 0 <= k < |s| ==> r[k] == s[k].(state := DeleteFlushed(s, k))
  {
    seq(|s|, k requires 0 <= k < |s| => s[k].(state := DeleteFlushed(s, k)))
  }

  /** The first of the writes that wait for a delete is a big one. */
  lemma {:induction false} DeleteChain(s: seq<Dirty>, clean: bool, k: nat) returns (g: nat)
    requires Disciplined(s, clean) && k < |s| && s[k].state == WaitDel && s[k].kind == SmallWrite
    ensures g < k && s[g].kind == BigWrite && s[g].state == WaitDel && forall j :: g < j < k ==> s[j].kind == SmallWrite
    decreases k
  {
    DisciplinedAt(s, clean, k);
    DisciplinedAt(s, clean, k - 1);
    g := k - 1;
    if s[k - 1].kind == SmallWrite { g := DeleteChain(s, clean, k - 1); }
  }

  lemma {:induction false} AfterDeleteRests(s: seq<Dirty>, clean: bool, k: nat)
    requires k <= |s|
    ensures Rests(AfterDelete(s)[..k], clean) == Rests(s[..k], clean)
    decreases k
  {
    if k > 0 {
      AfterDeleteRests(s, clean, k - 1);
      assert Front(s[..k]) == s[..k - 1] && Front(AfterDelete(s)[..k]) == AfterDelete(s)[..k - 1];
    }
  }

  lemma {:induction false} RestsOn(s: seq<Dirty>, clean: bool, g: nat, k: nat)
    requires g < k <= |s| && s[g].kind == BigWrite && forall j :: g < j < k ==> s[j].kind == SmallWrite
    ensures Rests(s[..k], clean) <==> IsSynced(s[g].state)
    decreases k
  {
    assert Last(s[..k]) == s[k - 1] && Front(s[..k]) == s[..k - 1];
    if k - 1 > g { RestsOn(s, clean, g, k - 1); }
  }

  lemma AfterDeleteDisciplined(s: seq<Dirty>, clean: bool)
    requires Disciplined(s, clean)
    ensures Disciplined(AfterDelete(s), clean)
  {
    hide Disciplined, Rests;
    var r := AfterDelete(s);
    forall k | 0 <= k < |r| ensures WaitsRight(r[..k], r[k], clean) {
      DisciplinedAt(s, clean, k);
      AfterDeleteRests(s, clean, k);
      if s[k].state == WaitDel && s[k].kind == SmallWrite {
        var g := DeleteChain(s, clean, k);
        RestsOn(s, clean, g, k);
      }
    }
    DisciplinedIf(r, clean);
  }
}
