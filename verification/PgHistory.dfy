/** Changing the number of placement groups: the history of each new group takes over everything that
    is known about the old groups that its objects may have been in. */
module PgHistory {
  import opened Basics

  /** An OSD set with its position-dependent order. */
  type OsdSet = seq<nat>

  datatype History = History(sets: set<OsdSet>, peers: set<nat>, epoch: nat)

  const NO_HISTORY: History := History({}, {}, 0)

  /** `add_pg_history`. */
  function Add(h: History, pg: OsdSet, was: Option<History>): History {
    if was.None? then h.(sets := h.sets + {pg})
    else History(h.sets + {pg} + was.value.sets, h.peers + was.value.peers,
                 if h.epoch < was.value.epoch then was.value.epoch else h.epoch)
  }

  /** The history knows where the objects of an old group have been. */
  predicate Includes(h: History, pg: OsdSet, was: Option<History>) {
    && pg in h.sets
    && (was.Some? ==> was.value.sets <= h.sets && was.value.peers <= h.peers && was.value.epoch <= h.epoch)
  }

  /** The old groups `js`, merged in order. */
  function Merged(js: seq<nat>, pgs: seq<OsdSet>, hist: seq<Option<History>>): History
    requires |pgs| == |hist| && forall k :: 0 <= k < |js| ==> js[k] < |pgs|
  {
    if js == [] then NO_HISTORY
    else
      var j := js[|js| - 1];
      Add(Merged(js[..|js| - 1], pgs, hist), pgs[j], hist[j])
  }

  lemma {:induction false} MergedIncludes(js: seq<nat>, pgs: seq<OsdSet>, hist: seq<Option<History>>, k: nat)
    requires |pgs| == |hist| && (forall i :: 0 <= i < |js| ==> js[i] < |pgs|) && k < |js|
    ensures Includes(Merged(js, pgs, hist), pgs[js[k]], hist[js[k]])
    decreases |js|
  {
    if k < |js| - 1 { MergedIncludes(js[..|js| - 1], pgs, hist, k); }
  }

  /** Nothing comes from anywhere else. */
  lemma {:induction false} MergedOnly(js: seq<nat>, pgs: seq<OsdSet>, hist: seq<Option<History>>, s: OsdSet)
    requires |pgs| == |hist| && (forall i :: 0 <= i < |js| ==> js[i] < |pgs|) && s in Merged(js, pgs, hist).sets
    ensures exists k :: 0 <= k < |js| && (s == pgs[js[k]] || (hist[js[k]].Some? && s in hist[js[k]].value.sets))
    decreases |js|
  {
    var n := |js| - 1;
    if s in Merged(js[..n], pgs, hist).sets {
      MergedOnly(js[..n], pgs, hist, s);
      var k :| 0 <= k < n && (s == pgs[js[..n][k]] || (hist[js[..n][k]].Some? && s in hist[js[..n][k]].value.sets));
      assert js[..n][k] == js[k];
    } else {
      assert s == pgs[js[n]] || (hist[js[n]].Some? && s in hist[js[n]].value.sets);
    }
  }

  /** And so do all peers and the epoch. */
  lemma {:induction false} MergedFrom(js: seq<nat>, pgs: seq<OsdSet>, hist: seq<Option<History>>)
    requires |pgs| == |hist| && (forall i :: 0 <= i < |js| ==> js[i] < |pgs|)
    ensures var h := Merged(js, pgs, hist);
            && (forall peer :: peer in h.peers ==> exists k :: 0 <= k < |js| && HasPeer(hist[js[k]], peer))
            && (h.epoch == 0 || exists k :: 0 <= k < |js| && HasEpoch(hist[js[k]], h.epoch))
  {
    if js != [] {
      var n := |js| - 1;
      var rest := js[..n];
      MergedFrom(rest, pgs, hist);
      var h, g := Merged(js, pgs, hist), Merged(rest, pgs, hist);
      forall peer | peer in h.peers ensures exists k :: 0 <= k < |js| && HasPeer(hist[js[k]], peer) {
        if peer in g.peers {
          var k :| 0 <= k < n && HasPeer(hist[rest[k]], peer);
          assert HasPeer(hist[js[k]], peer);
        } else {
          assert HasPeer(hist[js[n]], peer);
        }
      }
      if h.epoch == g.epoch {
        if g.epoch != 0 {
          var k :| 0 <= k < n && HasEpoch(hist[rest[k]], g.epoch);
          assert HasEpoch(hist[js[k]], h.epoch);
        }
      } else {
        assert HasEpoch(hist[js[n]], h.epoch);
      }
    }
  }

  predicate HasPeer(h: Option<History>, peer: nat) { h.Some? && peer in h.value.peers }

  predicate HasEpoch(h: Option<History>, epoch: nat) { h.Some? && h.value.epoch == epoch }

  // ----- which old groups a new group may overlap

  lemma ModUnique(m: nat, x: nat, k: nat, r: nat)
    requires m > 0 && x == m * k + r && r < m
    ensures x % m == r
  {
    var k', r' := x / m, x % m;
    assert x == m * k' + r';
    if k < k' { MulMono(m, k + 1, k'); } else if k' < k { MulMono(m, k' + 1, k); }
  }

  lemma MulMono(m: nat, p: nat, q: nat)
    requires p <= q
    ensures m * p <= m * q
  {
  }

  /** The remainder by a divisor of `n` survives taking the remainder by `n`. */
  lemma ModMod(q: nat, n: nat, m: nat)
    requires m > 0 && n > 0 && n % m == 0
    ensures q % n % m == q % m
  {
    var a, i, b := q / n, q % n, n / m;
    var c, r := i / m, i % m;
    Compose(m, n, q, a, b, c, i, r);
    ModUnique(m, q, b * a + c, r);
  }

  lemma Compose(m: nat, n: nat, q: nat, a: nat, b: nat, c: nat, i: nat, r: nat)
    requires q == n * a + i && n == m * b && i == m * c + r
    ensures q == m * (b * a + c) + r
  {
    calc {
      n * a;
      (m * b) * a;
      { MulAssoc(m, b, a); }
      m * (b * a);
    }
    Distribute(m, b * a, c);
  }

  lemma MulAssoc(m: nat, b: nat, a: nat)
    ensures (m * b) * a == m * (b * a)
  {
  }

  lemma Distribute(m: nat, x: nat, y: nat)
    ensures m * (x + y) == m * x + m * y
  {
  }

  /** The old groups that are merged into new group `i`. */
  function Sources(i: nat, oldCount: nat, newCount: nat): (js: seq<nat>)
    requires oldCount > 0 && i < newCount
    ensures forall k :: 0 <= k < |js| ==> js[k] < oldCount
  {
    if newCount % oldCount == 0 then [i % oldCount]
    else if oldCount % newCount == 0 then Strided(i, newCount, oldCount)
    else Upto(oldCount)
  }

  function Upto(n: nat): (r: seq<nat>)
    ensures |r| == n && forall k :: 0 <= k < n ==> r[k] == k
  {
    if n == 0 then [] else Upto(n - 1) + [n - 1]
  }

  /** Every `step`-th number from `i` on, below `n`. */
  function Strided(i: nat, step: nat, n: nat): (r: seq<nat>)
    requires step > 0
    ensures forall k :: 0 <= k < |r| ==> r[k] < n
    decreases n - i
  {
    if i >= n then [] else [i] + Strided(i + step, step, n)
  }

  lemma {:induction false} StridedHas(i: nat, step: nat, n: nat, j: nat)
    requires step > 0 && i <= j < n && j % step == i % step
    ensures j in Strided(i, step, n)
    decreases n - i
  {
    if i < j {
      ModNext(i, step);
      if j < i + step { NoNearer(i, j, step); }
      StridedHas(i + step, step, n, j);
    }
  }

  lemma ModNext(i: nat, step: nat)
    requires step > 0
    ensures (i + step) % step == i % step
  {
    assert i == step * (i / step) + i % step;
    assert i + step == step * (i / step + 1) + i % step;
    ModUnique(step, i + step, i / step + 1, i % step);
  }

  lemma NoNearer(i: nat, j: nat, step: nat)
    requires step > 0 && i < j < i + step
    ensures j % step != i % step
  {
    var a, r := i / step, i % step;
    assert i == step * a + r;
    if r + (j - i) < step {
      ModUnique(step, j, a, r + (j - i));
    } else {
      assert step * (a + 1) == step * a + step;
      ModUnique(step, j, a + 1, r + (j - i) - step);
    }
  }

  /** New group `q % newCount` takes over old group `q % oldCount`, whatever the counts are. */
  lemma SourceOf(q: nat, oldCount: nat, newCount: nat)
    requires oldCount > 0 && newCount > 0
    ensures q % oldCount in Sources(q % newCount, oldCount, newCount)
  {
    var i, j := q % newCount, q % oldCount;
    if newCount % oldCount == 0 {
      ModMod(q, newCount, oldCount);
    } else if oldCount % newCount == 0 {
      ModMod(q, oldCount, newCount);
      ModUnique(newCount, i, 0, i);
      if j < i { ModUnique(newCount, j, 0, j); }
      StridedHas(i, newCount, oldCount, j);
    } else {
      assert Upto(oldCount)[j] == j;
    }
  }

  lemma {:induction false} StridedOnly(i: nat, step: nat, n: nat, j: nat)
    requires step > 0 && j in Strided(i, step, n)
    ensures i <= j < n && j % step == i % step
    decreases n - i
  {
    if j != i {
      StridedOnly(i + step, step, n, j);
      ModNext(i, step);
    }
  }

  /** When one count divides the other, a new group takes over exactly the old groups that share an
      object with it. */
  lemma SourcesExact(i: nat, j: nat, oldCount: nat, newCount: nat)
    requires oldCount > 0 && i < newCount && (newCount % oldCount == 0 || oldCount % newCount == 0)
    ensures j in Sources(i, oldCount, newCount) <==> exists q: nat :: q % newCount == i && q % oldCount == j
  {
    if j in Sources(i, oldCount, newCount) {
      if newCount % oldCount == 0 {
        ModUnique(newCount, i, 0, i);
        assert i % newCount == i && i % oldCount == j;
      } else {
        StridedOnly(i, newCount, oldCount, j);
        ModUnique(newCount, i, 0, i);
        ModUnique(oldCount, j, 0, j);
        assert j % newCount == i && j % oldCount == j;
      }
    }
    forall q: nat | q % newCount == i && q % oldCount == j ensures j in Sources(i, oldCount, newCount) {
      SourceOf(q, oldCount, newCount);
    }
  }

  lemma {:induction false} MergedStep(js: seq<nat>, j: nat, pgs: seq<OsdSet>, hist: seq<Option<History>>)
    requires |pgs| == |hist| && j < |pgs| && forall k :: 0 <= k < |js| ==> js[k] < |pgs|
    ensures Merged(js + [j], pgs, hist) == Add(Merged(js, pgs, hist), pgs[j], hist[j])
  {
    assert (js + [j])[..|js|] == js;
  }

  /** Merging a list of old groups one by one. */
  method MergeGroups(js: seq<nat>, pgs: seq<OsdSet>, hist: seq<Option<History>>) returns (h: History)
    requires |pgs| == |hist| && forall k :: 0 <= k < |js| ==> js[k] < |pgs|
    ensures h == Merged(js, pgs, hist)
  {
    h := NO_HISTORY;
    for k := 0 to |js|
      invariant h == Merged(js[..k], pgs, hist)
    {
      assert js[..k + 1] == js[..k] + [js[k]];
      MergedStep(js[..k], js[k], pgs, hist);
      h := Add(h, pgs[js[k]], hist[js[k]]);
    }
    assert js[..|js|] == js;
  }

  /** The history that new group `i` gets. */
  function Scaled(hist: seq<Option<History>>, pgs: seq<OsdSet>, newCount: nat, i: nat): History
    requires |pgs| == |hist| > 0 && i < newCount
  {
    Merged(Sources(i, |pgs|, newCount), pgs, hist)
  }

  lemma ScaledIs(hist: seq<Option<History>>, pgs: seq<OsdSet>, newCount: nat, i: nat)
    requires |pgs| == |hist| > 0 && i < newCount
    ensures Scaled(hist, pgs, newCount, i) == Merged(Sources(i, |pgs|, newCount), pgs, hist)
    ensures newCount % |pgs| == 0 || |pgs| % newCount == 0 || Sources(i, |pgs|, newCount) == Upto(|pgs|)
  {
  }

  /** `scale_pg_history`: the histories of the new groups, then the marks of the removed ones. */
  method ScalePgHistory(hist: seq<Option<History>>, pgs: seq<OsdSet>, newCount: nat) returns (r: seq<Option<History>>)
    requires |pgs| == |hist| > 0
    ensures |r| == if newCount < |pgs| then |pgs| else newCount
    ensures forall i :: 0 <= i < newCount ==> r[i] == Some(Scaled(hist, pgs, newCount, i))
    ensures forall i :: newCount <= i < |r| ==> r[i] == None
  {
    hide Merged, Sources, Scaled;
    r := [];
    var multiple := newCount % |pgs| == 0 || |pgs| % newCount == 0;
    var all := NO_HISTORY;
    if !multiple {
      all := MergeGroups(Upto(|pgs|), pgs, hist);
    }
    for i := 0 to newCount
      invariant |r| == i && forall k :: 0 <= k < i ==> r[k] == Some(Scaled(hist, pgs, newCount, k))
    {
      var h := all;
      if multiple {
        h := MergeGroups(Sources(i, |pgs|, newCount), pgs, hist);
      }
      ScaledIs(hist, pgs, newCount, i);
      r := r + [Some(h)];
    }
    while |r| < |pgs|
      invariant newCount <= |r| && (|r| == newCount || |r| <= |pgs|)
      invariant forall k :: 0 <= k < newCount ==> r[k] == Some(Scaled(hist, pgs, newCount, k))
      invariant forall k :: newCount <= k < |r| ==> r[k] == None
    {
      r := r + [None];
    }
  }

  /** Nothing is forgotten: for every stripe group `q`, the history of its new placement group knows
      the OSD set, all former OSD sets and all peers of its old one, with an epoch at least as large. */
  lemma ForgetsNothing(hist: seq<Option<History>>, pgs: seq<OsdSet>, newCount: nat, q: nat)
    requires |pgs| == |hist| > 0 && newCount > 0
    ensures Includes(Scaled(hist, pgs, newCount, q % newCount), pgs[q % |pgs|], hist[q % |pgs|])
  {
    SourceOf(q, |pgs|, newCount);
    var js := Sources(q % newCount, |pgs|, newCount);
    var k :| 0 <= k < |js| && js[k] == q % |pgs|;
    MergedIncludes(js, pgs, hist, k);
  }
}
