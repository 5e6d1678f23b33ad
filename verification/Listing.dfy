/** Listing of objects: merging the clean entries with the dirty ones by binary search and in-place
    replacement gives the same as folding the dirty versions of each object over its clean version. */
module Listing {
  import opened Versions

  /** Object ids are numbers in listing order. */
  type Oid = nat

  datatype Item = Item(oid: Oid, version: nat)

  datatype DirtyItem = DirtyItem(oid: Oid, d: Dirty)

  predicate Sorted(s: seq<Item>) { forall i, j :: 0 <= i < j < |s| ==> s[i].oid < s[j].oid }

  /** The order of `dirty_db`: by object, then by version. */
  predicate DirtyOrder(s: seq<DirtyItem>) {
    forall i, j :: 0 <= i < j < |s| ==> s[i].oid <= s[j].oid
  }

  // ----- the simple definition

  /** Whether the listing counts a version as stable. */
  predicate ListedStable(d: Dirty) { d.kind != Delete && (d.state == Stable || d.instant) }

  /** One dirty version over the version listed so far; zero stands for absence. */
  function Step(version: nat, d: Dirty): nat {
    if d.kind == Delete then 0 else if ListedStable(d) then d.version else version
  }

  function Fold(version: nat, dirty: seq<DirtyItem>, o: Oid): nat {
    if dirty == [] then version
    else
      var v := Fold(version, dirty[..|dirty| - 1], o);
      if dirty[|dirty| - 1].oid == o then Step(v, dirty[|dirty| - 1].d) else v
  }

  /** The version listed for an object, or zero. */
  function VersionIn(s: seq<Item>, o: Oid): nat {
    if s == [] then 0 else if s[|s| - 1].oid == o then s[|s| - 1].version else VersionIn(s[..|s| - 1], o)
  }

  function Unstable(dirty: seq<DirtyItem>, inPg: Oid -> bool): seq<Item> {
    if dirty == [] then []
    else
      var x := dirty[|dirty| - 1];
      Unstable(dirty[..|dirty| - 1], inPg)
      + if inPg(x.oid) && x.d.kind != Delete && !ListedStable(x.d) then [Item(x.oid, x.d.version)] else []
  }

  // ----- lists of items

  predicate Distinct(s: seq<Item>) { forall i, j :: 0 <= i < j < |s| ==> s[i].oid != s[j].oid }

  lemma {:induction false} VersionAt(s: seq<Item>, i: nat)
    requires Distinct(s) && i < |s|
    ensures VersionIn(s, s[i].oid) == s[i].version
    decreases |s|
  {
    if i < |s| - 1 { VersionAt(s[..|s| - 1], i); }
  }

  lemma {:induction false} VersionAbsent(s: seq<Item>, o: Oid)
    requires forall i :: 0 <= i < |s| ==> s[i].oid != o
    ensures VersionIn(s, o) == 0
    decreases |s|
  {
    if s != [] { VersionAbsent(s[..|s| - 1], o); }
  }

  lemma {:induction false} VersionSet(s: seq<Item>, i: nat, version: nat, o: Oid)
    requires Distinct(s) && i < |s|
    ensures VersionIn(s[i := s[i].(version := version)], o) == if o == s[i].oid then version else VersionIn(s, o)
    decreases |s|
  {
    var n := |s| - 1;
    var s' := s[i := s[i].(version := version)];
    if i < n {
      VersionSet(s[..n], i, version, o);
      assert s'[..n] == s[..n][i := s[..n][i].(version := version)];
    } else {
      assert s'[..n] == s[..n];
    }
  }

  /** `replace_stable`: binary search in a sorted part of the list. */
  method ReplaceStable(s: seq<Item>, o: Oid, version: nat, lo: nat, hi: nat) returns (r: seq<Item>, found: bool)
    requires lo <= hi <= |s| && Sorted(s[lo..hi])
    ensures found <==> exists i :: lo <= i < hi && s[i].oid == o
    ensures !found ==> r == s
    ensures found ==> exists i :: lo <= i < hi && s[i].oid == o && r == s[i := s[i].(version := version)]
  {
    r, found := s, false;
    var start, end := lo, hi;
    while start < end
      invariant lo <= start <= end <= hi
      invariant forall i :: lo <= i < start ==> s[i].oid < o
      invariant forall i :: end <= i < hi ==> s[i].oid > o
    {
      var pos := start + (end - start) / 2;
      assert forall i :: lo <= i < hi ==> s[i] == s[lo..hi][i - lo];
      if o < s[pos].oid {
        end := pos;
      } else if s[pos].oid < o {
        start := pos + 1;
      } else {
        r, found := s[pos := s[pos].(version := version)], true;
        return;
      }
    }
  }

  // ----- the merge

  /** The list during the merge: the clean part, `cc` items long, and the part of dirty objects that
      have no clean entry; both sorted, the second one up to object `top`. */
  predicate Shape(s: seq<Item>, cc: nat, top: Oid) {
    && cc <= |s| && Sorted(s[..cc]) && Sorted(s[cc..]) && Distinct(s)
    && forall i :: cc <= i < |s| ==> s[i].oid <= top
  }

  lemma ShapeSet(s: seq<Item>, cc: nat, top: Oid, i: nat, version: nat)
    requires Shape(s, cc, top) && i < |s|
    ensures Shape(s[i := s[i].(version := version)], cc, top)
  {
    var s' := s[i := s[i].(version := version)];
    assert forall k :: 0 <= k < |s| ==> s'[k].oid == s[k].oid;
    assert forall k :: 0 <= k < cc ==> s'[..cc][k].oid == s[..cc][k].oid;
    assert forall k :: 0 <= k < |s| - cc ==> s'[cc..][k].oid == s[cc..][k].oid;
  }

  lemma ShapePush(s: seq<Item>, cc: nat, top: Oid, x: Item)
    requires Shape(s, cc, top) && top <= x.oid && forall i :: 0 <= i < |s| ==> s[i].oid != x.oid
    ensures Shape(s + [x], cc, x.oid)
  {
    var s' := s + [x];
    assert s'[..cc] == s[..cc] && s'[cc..] == s[cc..] + [x];
    assert forall k :: 0 <= k < |s| - cc ==> s[cc..][k] == s[cc + k];
  }

  /** The change that one dirty version makes to the list. */
  ghost predicate Merged(s: seq<Item>, x: DirtyItem, s': seq<Item>) {
    forall o :: VersionIn(s', o) == if o == x.oid then Step(VersionIn(s, o), x.d) else VersionIn(s, o)
  }

  lemma SetMerged(s: seq<Item>, i: nat, version: nat, x: DirtyItem)
    requires Distinct(s) && i < |s| && s[i].oid == x.oid && version == Step(s[i].version, x.d)
    ensures Merged(s, x, s[i := s[i].(version := version)])
  {
    var s' := s[i := s[i].(version := version)];
    VersionAt(s, i);
    forall o ensures VersionIn(s', o) == if o == x.oid then Step(VersionIn(s, o), x.d) else VersionIn(s, o) {
      VersionSet(s, i, version, o);
    }
  }

  lemma PushMerged(s: seq<Item>, x: DirtyItem)
    requires (forall i :: 0 <= i < |s| ==> s[i].oid != x.oid) && ListedStable(x.d)
    ensures Merged(s, x, s + [Item(x.oid, x.d.version)])
  {
    var s' := s + [Item(x.oid, x.d.version)];
    assert s'[..|s|] == s;
  }

  method MergeDelete(s: seq<Item>, cc: nat, x: DirtyItem, ghost top: Oid) returns (s': seq<Item>)
    requires Shape(s, cc, top) && top <= x.oid && x.d.kind == Delete
    ensures Shape(s', cc, x.oid) && Merged(s, x, s') && forall i :: 0 <= i < cc ==> s'[i].oid == s[i].oid
  {
    hide Merged, Shape, Distinct, Sorted;
    ShapeParts(s, cc, top);
    var found;
    s', found := ReplaceStable(s, x.oid, 0, 0, cc);
    if !found {
      s', found := ReplaceStable(s, x.oid, 0, cc, |s|);
    }
    if found {
      ghost var i :| 0 <= i < |s| && s[i].oid == x.oid && s' == s[i := s[i].(version := 0)];
      DeleteSet(s, cc, top, i, x);
    } else {
      DeleteNone(s, cc, top, x);
    }
  }

  method MergeStable(s: seq<Item>, cc: nat, x: DirtyItem, ghost top: Oid) returns (s': seq<Item>)
    requires Shape(s, cc, top) && top <= x.oid && ListedStable(x.d)
    ensures Shape(s', cc, x.oid) && Merged(s, x, s') && forall i :: 0 <= i < cc ==> s'[i].oid == s[i].oid
  {
    hide Merged, Shape, Distinct, Sorted;
    ShapeParts(s, cc, top);
    var found;
    s', found := ReplaceStable(s, x.oid, x.d.version, 0, cc);
    if found {
      ghost var i :| 0 <= i < |s| && s[i].oid == x.oid && s' == s[i := s[i].(version := x.d.version)];
      StableSet(s, cc, top, i, x);
    } else if |s| > 0 && s[|s| - 1].oid == x.oid {
      s' := s[|s| - 1 := s[|s| - 1].(version := x.d.version)];
      StableSet(s, cc, top, |s| - 1, x);
    } else {
      NotInTail(s, cc, top, x.oid);
      ShapePush(s, cc, top, Item(x.oid, x.d.version));
      PushMerged(s, x);
      s' := s + [Item(x.oid, x.d.version)];
    }
  }

  lemma ShapeParts(s: seq<Item>, cc: nat, top: Oid)
    requires Shape(s, cc, top)
    ensures cc <= |s| && Sorted(s[0..cc]) && Sorted(s[cc..|s|])
  {
    assert s[0..cc] == s[..cc] && s[cc..|s|] == s[cc..];
  }

  lemma DeleteSet(s: seq<Item>, cc: nat, top: Oid, i: nat, x: DirtyItem)
    requires Shape(s, cc, top) && top <= x.oid && x.d.kind == Delete && i < |s| && s[i].oid == x.oid
    ensures var s' := s[i := s[i].(version := 0)];
            Shape(s', cc, x.oid) && Merged(s, x, s') && forall k :: 0 <= k < cc ==> s'[k].oid == s[k].oid
  {
    hide Merged;
    ShapeSet(s, cc, top, i, 0);
    SetMerged(s, i, 0, x);
  }

  lemma DeleteNone(s: seq<Item>, cc: nat, top: Oid, x: DirtyItem)
    requires Shape(s, cc, top) && top <= x.oid && x.d.kind == Delete && forall i :: 0 <= i < |s| ==> s[i].oid != x.oid
    ensures Shape(s, cc, x.oid) && Merged(s, x, s)
  {
    VersionAbsent(s, x.oid);
  }

  lemma StableSet(s: seq<Item>, cc: nat, top: Oid, i: nat, x: DirtyItem)
    requires Shape(s, cc, top) && top <= x.oid && ListedStable(x.d) && i < |s| && s[i].oid == x.oid
    ensures var s' := s[i := s[i].(version := x.d.version)];
            Shape(s', cc, x.oid) && Merged(s, x, s') && forall k :: 0 <= k < cc ==> s'[k].oid == s[k].oid
  {
    hide Merged;
    ShapeSet(s, cc, top, i, x.d.version);
    SetMerged(s, i, x.d.version, x);
  }

  /** Behind the clean part only the last item can be that of the newest object. */
  lemma NotInTail(s: seq<Item>, cc: nat, top: Oid, o: Oid)
    requires Shape(s, cc, top) && top <= o && (s == [] || s[|s| - 1].oid != o)
    ensures forall i :: cc <= i < |s| ==> s[i].oid != o
  {
    assert forall i :: cc <= i < |s| ==> s[cc..][i - cc] == s[i];
  }

  /** What the listing promises for object `o`. */
  function Listed(clean: seq<Item>, dirty: seq<DirtyItem>, inPg: Oid -> bool, o: Oid): nat {
    if inPg(o) then Fold(VersionIn(clean, o), dirty, o) else VersionIn(clean, o)
  }

  ghost predicate Lists(s: seq<Item>, clean: seq<Item>, dirty: seq<DirtyItem>, inPg: Oid -> bool) {
    forall o :: VersionIn(s, o) == Listed(clean, dirty, inPg, o)
  }

  lemma ListsMore(s: seq<Item>, s': seq<Item>, clean: seq<Item>, dirty: seq<DirtyItem>, inPg: Oid -> bool, k: nat)
    requires k < |dirty| && Lists(s, clean, dirty[..k], inPg)
    requires if inPg(dirty[k].oid) && (dirty[k].d.kind == Delete || ListedStable(dirty[k].d))
             then Merged(s, dirty[k], s') else s' == s
    ensures Lists(s', clean, dirty[..k + 1], inPg)
    ensures Unstable(dirty[..k + 1], inPg) == Unstable(dirty[..k], inPg)
            + if inPg(dirty[k].oid) && dirty[k].d.kind != Delete && !ListedStable(dirty[k].d)
              then [Item(dirty[k].oid, dirty[k].d.version)] else []
  {
    assert dirty[..k + 1][..k] == dirty[..k];
    forall o ensures VersionIn(s', o) == Listed(clean, dirty[..k + 1], inPg, o) {
      assert VersionIn(s, o) == Listed(clean, dirty[..k], inPg, o);
    }
  }

  /** Removing the zeroed items keeps all versions. */
  method Compact(s: seq<Item>) returns (r: seq<Item>)
    requires Distinct(s)
    ensures Distinct(r) && (forall i :: 0 <= i < |r| ==> r[i].version != 0)
    ensures forall o :: VersionIn(r, o) == VersionIn(s, o)
  {
    r := [];
    for i := 0 to |s|
      invariant Distinct(r) && forall j :: 0 <= j < |r| ==> r[j].version != 0
      invariant forall j :: 0 <= j < |r| ==> exists k :: 0 <= k < i && s[k] == r[j]
      invariant forall o :: VersionIn(r, o) == VersionIn(s[..i], o)
    {
      assert s[..i + 1][..i] == s[..i];
      ghost var r0 := r;
      if s[i].version != 0 {
        r := r + [s[i]];
        assert r[..|r0|] == r0;
      } else {
        VersionAbsent(s[..i], s[i].oid);
      }
    }
    assert s[..|s|] == s;
  }

  /** A listing without a limit: it returns as stable exactly the objects whose dirty versions, folded
      over the clean version, end present, with that version and each once; and as unstable exactly
      the other dirty versions that are not deletes, in order. */
  method ProcessList(clean: seq<Item>, dirty: seq<DirtyItem>, inPg: Oid -> bool)
      returns (stable: seq<Item>, unstable: seq<Item>)
    requires Sorted(clean) && DirtyOrder(dirty)
    ensures Distinct(stable) && forall i :: 0 <= i < |stable| ==> stable[i].version != 0
    ensures forall o :: VersionIn(stable, o) == Listed(clean, dirty, inPg, o)
    ensures unstable == Unstable(dirty, inPg)
  {
    stable, unstable := clean, [];
    ghost var top: Oid := 0;
    assert stable[..|clean|] == clean;
    for k := 0 to |dirty|
      invariant Shape(stable, |clean|, top) && (k < |dirty| ==> top <= dirty[k].oid)
      invariant Lists(stable, clean, dirty[..k], inPg) && unstable == Unstable(dirty[..k], inPg)
    {
      hide Lists, Shape, Merged;
      var x := dirty[k];
      ghost var s0 := stable;
      if inPg(x.oid) {
        if x.d.kind == Delete {
          stable := MergeDelete(stable, |clean|, x, top);
          top := x.oid;
        } else if x.d.state == Stable || x.d.instant {
          stable := MergeStable(stable, |clean|, x, top);
          top := x.oid;
        } else {
          unstable := unstable + [Item(x.oid, x.d.version)];
        }
      }
      ListsMore(s0, stable, clean, dirty, inPg, k);
    }
    assert dirty[..|dirty|] == dirty;
    stable := Compact(stable);
  }

  // ----- what is listed, by the kinds and states of the entries

  /** The entry decides about the listed version of the object: a delete, or a write that is stable or instant. */
  predicate Counts(x: DirtyItem, o: Oid) {
    x.oid == o && (x.d.kind == Delete || x.d.state == Stable || x.d.instant)
  }

  predicate LastCounting(dirty: seq<DirtyItem>, o: Oid, i: nat) {
    i < |dirty| && Counts(dirty[i], o) && forall j :: i < j < |dirty| ==> !Counts(dirty[j], o)
  }

  predicate NoneCounts(dirty: seq<DirtyItem>, o: Oid) { forall i :: 0 <= i < |dirty| ==> !Counts(dirty[i], o) }

  /** The newest delete or stable or instant write of an object is listed, as absent if it is a delete. Without one
      the clean version is. */
  lemma {:induction false} FoldIs(version: nat, dirty: seq<DirtyItem>, o: Oid)
    ensures NoneCounts(dirty, o) ==> Fold(version, dirty, o) == version
    ensures forall i: nat :: LastCounting(dirty, o, i) ==>
              Fold(version, dirty, o) == if dirty[i].d.kind == Delete then 0 else dirty[i].d.version
    decreases |dirty|
  {
    if dirty != [] {
      hide LastCounting, NoneCounts;
      var n: nat := |dirty| - 1;
      FoldIs(version, dirty[..n], o);
      CountingNext(dirty, n, o);
    } else {
      NothingCounts(o);
    }
  }

  lemma NothingCounts(o: Oid)
    ensures forall i: nat :: !LastCounting([], o, i)
  {
  }

  lemma CountingNext(dirty: seq<DirtyItem>, n: nat, o: Oid)
    requires n + 1 == |dirty|
    ensures NoneCounts(dirty, o) <==> !Counts(dirty[n], o) && NoneCounts(dirty[..n], o)
    ensures forall i: nat :: LastCounting(dirty, o, i) ==>
              i < |dirty| && if Counts(dirty[n], o) then i == n else i < n && LastCounting(dirty[..n], o, i)
  {
  }

  /** The listed versions are those; objects of other placement groups are listed as they are clean. */
  lemma ListedIs(clean: seq<Item>, dirty: seq<DirtyItem>, inPg: Oid -> bool, o: Oid)
    ensures !inPg(o) || NoneCounts(dirty, o) ==> Listed(clean, dirty, inPg, o) == VersionIn(clean, o)
    ensures forall i: nat :: inPg(o) && LastCounting(dirty, o, i) ==>
              Listed(clean, dirty, inPg, o) == if dirty[i].d.kind == Delete then 0 else dirty[i].d.version
  {
    hide Fold, LastCounting, NoneCounts;
    FoldIs(VersionIn(clean, o), dirty, o);
  }

  /** Exactly the writes of the placement group that are neither stable nor instant are listed as unstable. */
  lemma {:induction false} UnstableHas(dirty: seq<DirtyItem>, inPg: Oid -> bool, x: Item)
    ensures x in Unstable(dirty, inPg) <==> inPg(x.oid) && exists i :: 0 <= i < |dirty| && Undecided(dirty[i], x)
    decreases |dirty|
  {
    if dirty != [] {
      var n := |dirty| - 1;
      UnstableHas(dirty[..n], inPg, x);
      assert (exists i :: 0 <= i < |dirty| && Undecided(dirty[i], x)) <==>
             Undecided(dirty[n], x) || exists i :: 0 <= i < n && Undecided(dirty[..n][i], x);
    }
  }

  predicate Undecided(y: DirtyItem, x: Item) {
    && y.oid == x.oid && y.d.version == x.version
    && y.d.kind in {SmallWrite, BigWrite} && y.d.state != Stable && !y.d.instant
  }
}
