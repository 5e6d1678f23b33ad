/** Distribution of placement groups from folded failure domains to the disks in them, and back. */
module Unfolding {
  import opened Basics
  import opened Folding
  import Distribution

  /** One list of ids per placement group. */
  type Groups = seq<seq<nat>>

  // ----- one folded node

  /** The exact share of leaf `x` in `n` slots of the node that stands for `ids`. */
  ghost function Share(tree: Tree, ids: seq<nat>, x: nat, n: nat): real
    requires x in tree && (forall y :: y in ids ==> y in tree) && SumOf(tree, ids) > 0.0
  {
    Distribution.Share(tree[x].size, SumOf(tree, ids), n)
  }

  /** The slots of a folded node are with leaves of positive size, and what two of them have beyond
      their exact share differs by at most one. */
  ghost predicate Spread(tree: Tree, ids: seq<nat>, slots: seq<nat>)
    requires forall y :: y in ids ==> y in tree
  {
    && (forall s :: 0 <= s < |slots| ==> slots[s] in ids && tree[slots[s]].size > 0.0)
    && (slots != [] ==> SumOf(tree, ids) > 0.0)
    && forall a, b :: slots != [] && a in ids && b in ids && tree[a].size > 0.0 && tree[b].size > 0.0 ==>
         Close(tree, ids, slots, a, b)
  }

  ghost predicate Close(tree: Tree, ids: seq<nat>, slots: seq<nat>, a: nat, b: nat)
    requires a in tree && b in tree && (forall y :: y in ids ==> y in tree) && SumOf(tree, ids) > 0.0
  {
    (Distribution.Count(slots, a) as real - Share(tree, ids, a, |slots|))
    - (Distribution.Count(slots, b) as real - Share(tree, ids, b, |slots|)) <= 1.0
  }

  /** The keys are the leaves and after them unknown items, which weigh nothing. */
  ghost predicate Keyed(tree: Tree, ids: seq<nat>, keys: seq<nat>, weights: seq<real>) {
    && |weights| == |keys| && NoDup(keys) && ids <= keys
    && (forall k :: 0 <= k < |ids| ==> ids[k] in tree && weights[k] == tree[ids[k]].size && weights[k] >= 0.0)
    && forall k :: |ids| <= k < |keys| ==> weights[k] == 0.0
  }

  lemma {:induction false} KeyedSum(tree: Tree, ids: seq<nat>, keys: seq<nat>, weights: seq<real>)
    requires Keyed(tree, ids, keys, weights)
    ensures Distribution.Sum(weights) == SumOf(tree, ids)
    decreases |keys|
  {
    if |keys| > |ids| {
      var n := |keys| - 1;
      KeyedSum(tree, ids, keys[..n], weights[..n]);
    } else if ids != [] {
      var n := |ids| - 1;
      assert keys == ids && ids == ids[..n] + [ids[n]];
      KeyedSum(tree, ids[..n], keys[..n], weights[..n]);
      SumConcat(tree, ids[..n], [ids[n]]);
      assert [ids[n]][1..] == [];
    }
  }

  function Named(keys: seq<nat>, v: seq<nat>): (r: seq<nat>)
    requires forall s :: 0 <= s < |v| ==> v[s] < |keys|
    ensures |r| == |v| && forall s :: 0 <= s < |v| ==> r[s] == keys[v[s]]
  {
    seq(|v|, s requires 0 <= s < |v| => keys[v[s]])
  }

  lemma {:induction false} CountNamed(keys: seq<nat>, v: seq<nat>, k: nat)
    requires NoDup(keys) && k < |keys| && forall s :: 0 <= s < |v| ==> v[s] < |keys|
    ensures Distribution.Count(Named(keys, v), keys[k]) == Distribution.Count(v, k)
  {
    if v != [] {
      var n := |v| - 1;
      CountNamed(keys, v[..n], k);
      assert Named(keys, v)[..n] == Named(keys, v[..n]);
      assert keys[v[n]] == keys[k] <==> v[n] == k;
    }
  }

  lemma TargetOf(tree: Tree, ids: seq<nat>, keys: seq<nat>, weights: seq<real>, n: nat, k: nat)
    requires Keyed(tree, ids, keys, weights) && SumOf(tree, ids) > 0.0 && n > 0 && k < |keys|
    ensures Distribution.Sum(weights) == SumOf(tree, ids)
    ensures Distribution.Targets(weights, n)[k] > 0.0 <==> k < |ids| && tree[ids[k]].size > 0.0
    ensures k < |ids| ==> keys[k] == ids[k] && Distribution.Targets(weights, n)[k] == Share(tree, ids, ids[k], n)
  {
    KeyedSum(tree, ids, keys, weights);
    hide Distribution.Sum, SumOf, NoDup, Distribution.Share;
    Distribution.TargetSign(weights[k], SumOf(tree, ids), n);
  }

  /** The indexes are settled exactly when the leaves they name are spread. */
  lemma SettledIsSpread(tree: Tree, ids: seq<nat>, keys: seq<nat>, weights: seq<real>, v: seq<nat>)
    requires Keyed(tree, ids, keys, weights) && SumOf(tree, ids) > 0.0 && v != []
    requires forall s :: 0 <= s < |v| ==> v[s] < |keys|
    ensures Distribution.Sum(weights) == SumOf(tree, ids)
    ensures Distribution.Settled(Distribution.Targets(weights, |v|), v) <==> Spread(tree, ids, Named(keys, v))
  {
    KeyedSum(tree, ids, keys, weights);
    hide Distribution.Sum, SumOf, Distribution.Count, Distribution.Settled, Spread;
    var t, slots := Distribution.Targets(weights, |v|), Named(keys, v);
    if Distribution.Settled(t, v) { SettledSpreads(tree, ids, keys, weights, v); }
    if Spread(tree, ids, slots) { SpreadSettles(tree, ids, keys, weights, v); }
  }

  lemma SettledSpreads(tree: Tree, ids: seq<nat>, keys: seq<nat>, weights: seq<real>, v: seq<nat>)
    requires Keyed(tree, ids, keys, weights) && SumOf(tree, ids) > 0.0 && v != []
    requires forall s :: 0 <= s < |v| ==> v[s] < |keys|
    requires Distribution.Sum(weights) == SumOf(tree, ids)
    requires Distribution.Settled(Distribution.Targets(weights, |v|), v)
    ensures Spread(tree, ids, Named(keys, v))
  {
    hide Distribution.Sum, SumOf, Distribution.Count, Share;
    var t, slots := Distribution.Targets(weights, |v|), Named(keys, v);
    forall s | 0 <= s < |slots| ensures slots[s] in ids && tree[slots[s]].size > 0.0 {
      TargetOf(tree, ids, keys, weights, |v|, v[s]);
    }
    forall a, b | a in ids && b in ids && tree[a].size > 0.0 && tree[b].size > 0.0
      ensures Close(tree, ids, slots, a, b)
    {
      var i: nat :| i < |ids| && ids[i] == a;
      var j: nat :| j < |ids| && ids[j] == b;
      TargetOf(tree, ids, keys, weights, |v|, i);
      TargetOf(tree, ids, keys, weights, |v|, j);
      CountNamed(keys, v, i);
      CountNamed(keys, v, j);
    }
  }

  lemma SpreadSettles(tree: Tree, ids: seq<nat>, keys: seq<nat>, weights: seq<real>, v: seq<nat>)
    requires Keyed(tree, ids, keys, weights) && SumOf(tree, ids) > 0.0 && v != []
    requires forall s :: 0 <= s < |v| ==> v[s] < |keys|
    requires Distribution.Sum(weights) == SumOf(tree, ids) && Spread(tree, ids, Named(keys, v))
    ensures Distribution.Settled(Distribution.Targets(weights, |v|), v)
  {
    hide Distribution.Sum, SumOf, Distribution.Count, Share;
    var t, slots := Distribution.Targets(weights, |v|), Named(keys, v);
    forall s | 0 <= s < |v| ensures t[v[s]] > 0.0 {
      assert slots[s] in ids;
      var i: nat :| i < |ids| && ids[i] == slots[s];
      assert keys[i] == keys[v[s]];
      TargetOf(tree, ids, keys, weights, |v|, i);
    }
    forall i: nat, j: nat | i < |t| && j < |t| && t[i] > 0.0 && t[j] > 0.0
      ensures (Distribution.Count(v, i) as real - t[i]) - (Distribution.Count(v, j) as real - t[j]) <= 1.0
    {
      TargetOf(tree, ids, keys, weights, |v|, i);
      TargetOf(tree, ids, keys, weights, |v|, j);
      CountNamed(keys, v, i);
      CountNamed(keys, v, j);
      assert Close(tree, ids, slots, ids[i], ids[j]);
    }
  }

  /** The position of a key, or the number of keys. */
  method Position(keys: seq<nat>, x: nat) returns (i: nat)
    ensures i <= |keys| && (i < |keys| ==> keys[i] == x) && (i == |keys| ==> x !in keys)
  {
    i := 0;
    while i < |keys| && keys[i] != x
      invariant i <= |keys| && forall k :: 0 <= k < i ==> keys[k] != x
    {
      i := i + 1;
    }
  }

  /** The slots of one folded node, spread over its leaves; slots that are spread already stay. */
  method Distribute(tree: Tree, ids: seq<nat>, prev: seq<nat>) returns (next: seq<nat>)
    requires NoDup(ids) && forall x :: x in ids ==> x in tree && tree[x].size >= 0.0
    requires prev != [] ==> SumOf(tree, ids) > 0.0
    ensures |next| == |prev| && Spread(tree, ids, next) && (Spread(tree, ids, prev) ==> next == prev)
  {
    if prev == [] { return []; }
    var keys, cur: seq<nat> := ids, [];
    var weights := seq(|ids|, k requires 0 <= k < |ids| => tree[ids[k]].size);
    hide SumOf, NoDup, Spread;
    for k := 0 to |prev|
      invariant Keyed(tree, ids, keys, weights) && |cur| == k
      invariant forall s :: 0 <= s < k ==> cur[s] < |keys| && keys[cur[s]] == prev[s]
    {
      var i := Position(keys, prev[k]);
      if i == |keys| {
        NewKey(tree, ids, keys, weights, prev[k]);
        keys, weights := keys + [prev[k]], weights + [0.0];
      }
      cur := cur + [i];
    }
    assert Named(keys, cur) == prev;
    SettledIsSpread(tree, ids, keys, weights, cur);
    hide Keyed, Distribution.Settled, Distribution.Sum;
    KeyedWeights(tree, ids, keys, weights);
    var r := Distribution.AdjustDistribution(weights, cur);
    SettledIsSpread(tree, ids, keys, weights, r);
    next := Named(keys, r);
  }

  lemma KeyedWeights(tree: Tree, ids: seq<nat>, keys: seq<nat>, weights: seq<real>)
    requires Keyed(tree, ids, keys, weights)
    ensures |weights| == |keys| && forall k :: 0 <= k < |weights| ==> weights[k] >= 0.0
  {
  }

  lemma NewKey(tree: Tree, ids: seq<nat>, keys: seq<nat>, weights: seq<real>, x: nat)
    requires Keyed(tree, ids, keys, weights) && x !in keys
    ensures Keyed(tree, ids, keys + [x], weights + [0.0])
  {
  }

  // ----- the slots of a node in all groups

  ghost predicate SameShape(a: Groups, b: Groups) { |a| == |b| && forall i :: 0 <= i < |a| ==> |a[i]| == |b[i]| }

  /** The values in the places where `row` has `id`. */
  ghost function RowSlots(row: seq<nat>, vals: seq<nat>, id: nat): (r: seq<nat>)
    requires |row| == |vals|
    ensures |r| == Distribution.Count(row, id)
  {
    if row == [] then []
    else var n := |row| - 1;
         RowSlots(row[..n], vals[..n], id) + if row[n] == id then [vals[n]] else []
  }

  ghost function Slots(pgs: Groups, vals: Groups, id: nat): (r: seq<nat>)
    requires SameShape(pgs, vals)
  {
    if pgs == [] then []
    else var n := |pgs| - 1;
         Slots(pgs[..n], vals[..n], id) + RowSlots(pgs[n], vals[n], id)
  }

  lemma {:induction false} RowSlotIn(row: seq<nat>, vals: seq<nat>, j: nat)
    requires |row| == |vals| && j < |row|
    ensures vals[j] in RowSlots(row, vals, row[j])
  {
    var n := |row| - 1;
    if j < n { RowSlotIn(row[..n], vals[..n], j); }
  }

  lemma {:induction false} SlotIn(pgs: Groups, vals: Groups, i: nat, j: nat)
    requires SameShape(pgs, vals) && i < |pgs| && j < |pgs[i]|
    ensures vals[i][j] in Slots(pgs, vals, pgs[i][j])
  {
    var n := |pgs| - 1;
    if i < n { SlotIn(pgs[..n], vals[..n], i, j); } else { RowSlotIn(pgs[i], vals[i], j); }
  }

  /** Values that agree in the slots of some nodes and everywhere else are the same. */
  lemma {:induction false} RowSame(row: seq<nat>, a: seq<nat>, b: seq<nat>, ids: set<nat>)
    requires |row| == |a| == |b| && forall id :: id in ids ==> RowSlots(row, a, id) == RowSlots(row, b, id)
    requires forall j :: 0 <= j < |row| && row[j] !in ids ==> a[j] == b[j]
    ensures a == b
  {
    if row != [] {
      var n := |row| - 1;
      assert a == a[..n] + [a[n]] && b == b[..n] + [b[n]];
      forall id | id in ids
        ensures RowSlots(row[..n], a[..n], id) == RowSlots(row[..n], b[..n], id) && (row[n] == id ==> a[n] == b[n])
      {
        var x, y := RowSlots(row[..n], a[..n], id), RowSlots(row[..n], b[..n], id);
        assert RowSlots(row, a, id)[..|x|] == x && RowSlots(row, b, id)[..|y|] == y;
        if row[n] == id { assert RowSlots(row, a, id)[|x|] == a[n] && RowSlots(row, b, id)[|y|] == b[n]; }
      }
      RowSame(row[..n], a[..n], b[..n], ids);
    }
  }

  lemma {:induction false} SlotsSize(pgs: Groups, a: Groups, b: Groups, id: nat)
    requires SameShape(pgs, a) && SameShape(pgs, b)
    ensures |Slots(pgs, a, id)| == |Slots(pgs, b, id)|
  {
    if pgs != [] {
      var n := |pgs| - 1;
      SlotsSize(pgs[..n], a[..n], b[..n], id);
    }
  }

  lemma LastRowSame(pgs: Groups, a: Groups, b: Groups, id: nat)
    requires SameShape(pgs, a) && SameShape(pgs, b) && pgs != [] && Slots(pgs, a, id) == Slots(pgs, b, id)
    ensures var n := |pgs| - 1; Slots(pgs[..n], a[..n], id) == Slots(pgs[..n], b[..n], id)
    ensures var n := |pgs| - 1; RowSlots(pgs[n], a[n], id) == RowSlots(pgs[n], b[n], id)
  {
    var n := |pgs| - 1;
    SlotsSize(pgs[..n], a[..n], b[..n], id);
    var x, y := Slots(pgs[..n], a[..n], id), Slots(pgs[..n], b[..n], id);
    var u, v := RowSlots(pgs[n], a[n], id), RowSlots(pgs[n], b[n], id);
    assert (x + u)[..|x|] == x && (y + v)[..|y|] == y && (x + u)[|x|..] == u && (y + v)[|y|..] == v;
  }

  lemma {:induction false} SlotsSame(pgs: Groups, a: Groups, b: Groups, ids: set<nat>)
    requires SameShape(pgs, a) && SameShape(pgs, b) && forall id :: id in ids ==> Slots(pgs, a, id) == Slots(pgs, b, id)
    requires forall i, j :: 0 <= i < |pgs| && 0 <= j < |pgs[i]| && pgs[i][j] !in ids ==> a[i][j] == b[i][j]
    ensures a == b
  {
    if pgs != [] {
      var n := |pgs| - 1;
      forall id | id in ids
        ensures Slots(pgs[..n], a[..n], id) == Slots(pgs[..n], b[..n], id)
        ensures RowSlots(pgs[n], a[n], id) == RowSlots(pgs[n], b[n], id)
      {
        LastRowSame(pgs, a, b, id);
      }
      SlotsSame(pgs[..n], a[..n], b[..n], ids);
      RowSame(pgs[n], a[n], b[n], ids);
      assert a == a[..n] + [a[n]] && b == b[..n] + [b[n]];
    }
  }

  // ----- unfold_failure_domains

  /** The previous id of a slot, 0 when there is none. */
  function At(prev: Groups, i: nat, j: nat): nat { if i < |prev| && j < |prev[i]| then prev[i][j] else 0 }

  function PaddedRow(row: seq<nat>, prev: Groups, i: nat): (r: seq<nat>)
    ensures |r| == |row| && forall j :: 0 <= j < |r| ==> r[j] == At(prev, i, j)
  {
    seq(|row|, j requires 0 <= j < |row| => At(prev, i, j))
  }

  ghost function Padded(pgs: Groups, prev: Groups): (r: Groups)
    ensures SameShape(pgs, r) && forall i :: 0 <= i < |r| ==> r[i] == PaddedRow(pgs[i], prev, i)
  {
    seq(|pgs|, i requires 0 <= i < |pgs| => PaddedRow(pgs[i], prev, i))
  }

  /** The previous ids of the slots of one group are added to the lists of their nodes. */
  method CollectRow(row: seq<nat>, vals: seq<nat>, lists: map<nat, seq<nat>>) returns (r: map<nat, seq<nat>>)
    requires |row| == |vals|
    ensures r.Keys == lists.Keys && forall id :: id in r ==> r[id] == lists[id] + RowSlots(row, vals, id)
  {
    r := lists;
    for j := 0 to |row|
      invariant r.Keys == lists.Keys && forall id :: id in r ==> r[id] == lists[id] + RowSlots(row[..j], vals[..j], id)
    {
      assert row[..j + 1][..j] == row[..j] && vals[..j + 1][..j] == vals[..j];
      if row[j] in r {
        r := r[row[j] := r[row[j]] + [vals[j]]];
      }
    }
    assert row[..|row|] == row && vals[..|row|] == vals;
  }

  method CollectPrev(pgs: Groups, prev: Groups, ids: set<nat>) returns (lists: map<nat, seq<nat>>)
    ensures lists.Keys == ids && forall id :: id in ids ==> lists[id] == Slots(pgs, Padded(pgs, prev), id)
  {
    lists := map id | id in ids :: [];
    ghost var padded := Padded(pgs, prev);
    for i := 0 to |pgs|
      invariant lists.Keys == ids && SameShape(pgs[..i], padded[..i])
      invariant forall id :: id in ids ==> lists[id] == Slots(pgs[..i], padded[..i], id)
    {
      lists := CollectRow(pgs[i], PaddedRow(pgs[i], prev, i), lists);
      assert pgs[..i + 1][..i] == pgs[..i] && padded[..i + 1][..i] == padded[..i];
    }
    assert pgs[..|pgs|] == pgs && padded[..|pgs|] == padded;
  }

  /** The slots of `id` in `row` have the items of `items` from `from` up to `to`. */
  ghost predicate Taken(row: seq<nat>, r: seq<nat>, id: nat, items: seq<nat>, from: nat, to: nat) {
    && |r| == |row| && to <= |items| && to == from + Distribution.Count(row, id)
    && items[..from] + RowSlots(row, r, id) == items[..to]
  }

  lemma TakenMore(row: seq<nat>, r: seq<nat>, id: nat, items: seq<nat>, from: nat, to: nat, x: nat, y: nat)
    requires Taken(row, r, id, items, from, to) && (x == id ==> to < |items| && y == items[to])
    ensures Taken(row + [x], r + [y], id, items, from, if x == id then to + 1 else to)
  {
    assert (row + [x])[..|row|] == row && (r + [y])[..|row|] == r;
    if x == id { assert items[..to + 1] == items[..to] + [y]; }
  }

  lemma TakenNone(id: nat, items: seq<nat>, from: nat, row: seq<nat>)
    requires from <= |items|
    ensures Taken(row[..0], [], id, items, from, from)
  {
  }

  lemma HasRoom(row: seq<nat>, j: nat, r: seq<nat>, items: seq<nat>, from: nat, to: nat)
    requires j < |row| && Taken(row[..j], r, row[j], items, from, to)
    requires from + Distribution.Count(row, row[j]) <= |items|
    ensures to < |items|
  {
    CountUpto(row, j);
    assert row[..j + 1][..j] == row[..j];
    assert Distribution.Count(row[..j + 1], row[j]) == Distribution.Count(row[..j], row[j]) + 1;
  }

  /** The next items of each node, one after another, take the slots of one group. */
  method MapRow(row: seq<nat>, next: map<nat, seq<nat>>, pos0: map<nat, nat>) returns (r: seq<nat>, pos: map<nat, nat>)
    requires pos0.Keys == next.Keys && forall id :: id in next ==> pos0[id] + Distribution.Count(row, id) <= |next[id]|
    ensures |r| == |row| && forall j :: 0 <= j < |row| && row[j] !in next ==> r[j] == row[j]
    ensures pos.Keys == next.Keys && forall id :: id in next ==> Taken(row, r, id, next[id], pos0[id], pos[id])
  {
    r, pos := [], pos0;
    hide Taken, Distribution.Count;
    forall id | id in next ensures Taken(row[..0], [], id, next[id], pos0[id], pos0[id]) {
      TakenNone(id, next[id], pos0[id], row);
    }
    for j := 0 to |row|
      invariant |r| == j && forall k :: 0 <= k < j && row[k] !in next ==> r[k] == row[k]
      invariant pos.Keys == next.Keys && forall id :: id in next ==> Taken(row[..j], r, id, next[id], pos0[id], pos[id])
    {
      if row[j] in next { HasRoom(row, j, r, next[row[j]], pos0[row[j]], pos[row[j]]); }
      assert row[..j + 1] == row[..j] + [row[j]];
      var y := if row[j] in next then next[row[j]][pos[row[j]]] else row[j];
      forall id | id in next
        ensures Taken(row[..j + 1], r + [y], id, next[id], pos0[id], if row[j] == id then pos[id] + 1 else pos[id])
      {
        TakenMore(row[..j], r, id, next[id], pos0[id], pos[id], row[j], y);
      }
      r := r + [y];
      if row[j] in next {
        pos := pos[row[j] := pos[row[j]] + 1];
      }
    }
    assert row[..|row|] == row;
  }

  lemma {:induction false} CountUpto(row: seq<nat>, j: nat)
    requires j < |row|
    ensures forall id :: Distribution.Count(row[..j + 1], id) <= Distribution.Count(row, id)
    decreases |row|
  {
    var n := |row| - 1;
    if j < n {
      CountUpto(row[..n], j);
      assert row[..n][..j + 1] == row[..j + 1];
      forall id ensures Distribution.Count(row[..j + 1], id) <= Distribution.Count(row, id) {
        assert Distribution.Count(row[..n][..j + 1], id) <= Distribution.Count(row[..n], id);
      }
    } else {
      assert row[..j + 1] == row;
    }
  }

  /** What each folded node contributes: its leaves are in the original tree, and it has some weight if
      it is used. */
  ghost predicate Usable(tree: Tree, leaves: map<nat, seq<nat>>, pgs: Groups) {
    && (forall id, x :: id in leaves && x in leaves[id] ==> x in tree && tree[x].size >= 0.0)
    && (forall id :: id in leaves ==> NoDup(leaves[id]))
    && forall id, i :: id in leaves && 0 <= i < |pgs| && id in pgs[i] ==> SumOf(tree, leaves[id]) > 0.0
  }

  /** Ids of folded nodes are replaced by leaves in them, others stay. */
  ghost predicate Replaced(tree: Tree, leaves: map<nat, seq<nat>>, pgs: Groups, r: Groups) {
    && SameShape(pgs, r)
    && (forall i, j :: 0 <= i < |pgs| && 0 <= j < |pgs[i]| && pgs[i][j] !in leaves ==> r[i][j] == pgs[i][j])
    && forall i, j :: 0 <= i < |pgs| && 0 <= j < |pgs[i]| && pgs[i][j] in leaves ==>
         r[i][j] in leaves[pgs[i][j]] && r[i][j] in tree && tree[r[i][j]].size > 0.0
  }

  lemma {:induction false} SlotsUsed(pgs: Groups, vals: Groups, id: nat)
    requires SameShape(pgs, vals) && Slots(pgs, vals, id) != []
    ensures exists i :: 0 <= i < |pgs| && id in pgs[i]
  {
    var n := |pgs| - 1;
    if RowSlots(pgs[n], vals[n], id) != [] {
      CountIn(pgs[n], id);
    } else {
      SlotsUsed(pgs[..n], vals[..n], id);
      var i :| 0 <= i < n && id in pgs[..n][i];
      assert id in pgs[i];
    }
  }

  lemma {:induction false} CountIn(row: seq<nat>, id: nat)
    requires Distribution.Count(row, id) > 0
    ensures id in row
  {
    var n := |row| - 1;
    if row[n] != id { CountIn(row[..n], id); }
  }

  /** A node whose slots can be distributed, and what that gives. */
  ghost predicate Ready(tree: Tree, ids: seq<nat>, prev: seq<nat>) {
    NoDup(ids) && (forall x :: x in ids ==> x in tree && tree[x].size >= 0.0) && (prev != [] ==> SumOf(tree, ids) > 0.0)
  }

  ghost predicate Done(tree: Tree, ids: seq<nat>, prev: seq<nat>, next: seq<nat>)
    requires Ready(tree, ids, prev)
  {
    |next| == |prev| && Spread(tree, ids, next) && (Spread(tree, ids, prev) ==> next == prev)
  }

  /** New items for every folded node. */
  method DistributeAll(tree: Tree, leaves: map<nat, seq<nat>>,
          lists: map<nat, seq<nat>>) returns (next: map<nat, seq<nat>>)
    requires lists.Keys == leaves.Keys && forall id :: id in leaves ==> Ready(tree, leaves[id], lists[id])
    ensures next.Keys == leaves.Keys && forall id :: id in leaves ==> Done(tree, leaves[id], lists[id], next[id])
  {
    next := map[];
    var rest := leaves.Keys;
    hide NoDup, Spread, SumOf;
    while rest != {}
      invariant rest <= leaves.Keys && next.Keys == leaves.Keys - rest
      invariant forall id :: id in next ==> Done(tree, leaves[id], lists[id], next[id])
      decreases |rest|
    {
      var id := Least(rest);
      assert Ready(tree, leaves[id], lists[id]);
      var items := Distribute(tree, leaves[id], lists[id]);
      assert Done(tree, leaves[id], lists[id], items);
      hide Done, Ready;
      next, rest := next[id := items], rest - {id};
    }
  }

  ghost predicate AllTaken(pgs: Groups, r: Groups, next: map<nat, seq<nat>>, pos: map<nat, nat>) {
    && SameShape(pgs, r) && pos.Keys == next.Keys
    && (forall i, j :: 0 <= i < |pgs| && 0 <= j < |pgs[i]| && pgs[i][j] !in next ==> r[i][j] == pgs[i][j])
    && forall id :: id in next ==> pos[id] <= |next[id]| && Slots(pgs, r, id) == next[id][..pos[id]]
  }

  lemma OneMoreRow(pgs: Groups, r: Groups, next: map<nat, seq<nat>>, pos: map<nat, nat>, row: seq<nat>, vals: seq<nat>,
          pos': map<nat, nat>)
    requires AllTaken(pgs, r, next, pos) && pos'.Keys == next.Keys && |row| == |vals|
    requires forall j :: 0 <= j < |row| && row[j] !in next ==> vals[j] == row[j]
    requires forall id :: id in next ==> Taken(row, vals, id, next[id], pos[id], pos'[id])
    ensures AllTaken(pgs + [row], r + [vals], next, pos')
  {
    forall id | id in next
      ensures pos'[id] <= |next[id]| && Slots(pgs + [row], r + [vals], id) == next[id][..pos'[id]]
    {
      assert Taken(row, vals, id, next[id], pos[id], pos'[id]);
      assert (pgs + [row])[..|pgs|] == pgs && (r + [vals])[..|pgs|] == r;
    }
  }

  lemma {:induction false} RoomForRow(pgs: Groups, vals: Groups, i: nat, id: nat)
    requires SameShape(pgs, vals) && i < |pgs|
    ensures |Slots(pgs[..i], vals[..i], id)| + Distribution.Count(pgs[i], id) <= |Slots(pgs, vals, id)|
    decreases |pgs|
  {
    var n := |pgs| - 1;
    if i < n {
      RoomForRow(pgs[..n], vals[..n], i, id);
      assert pgs[..n][..i] == pgs[..i] && vals[..n][..i] == vals[..i];
    }
  }

  /** All slots of all groups, from the first to the last. */
  method MapGroups(pgs: Groups, next: map<nat, seq<nat>>) returns (r: Groups)
    requires forall id :: id in next ==> |next[id]| == |Slots(pgs, pgs, id)|
    ensures SameShape(pgs, r)
    ensures forall i, j :: 0 <= i < |pgs| && 0 <= j < |pgs[i]| && pgs[i][j] !in next ==> r[i][j] == pgs[i][j]
    ensures forall id :: id in next ==> Slots(pgs, r, id) == next[id]
  {
    r := [];
    var pos := map id | id in next :: 0;
    hide Taken, Distribution.Count;
    assert AllTaken(pgs[..0], [], next, pos);
    for i := 0 to |pgs|
      invariant AllTaken(pgs[..i], r, next, pos)
    {
      forall id | id in next ensures pos[id] + Distribution.Count(pgs[i], id) <= |next[id]| {
        RoomForRow(pgs, pgs, i, id);
        SlotsSize(pgs[..i], r, pgs[..i], id);
      }
      hide AllTaken;
      AllTakenKeys(pgs[..i], r, next, pos);
      var row, pos' := MapRow(pgs[i], next, pos);
      OneMoreRow(pgs[..i], r, next, pos, pgs[i], row, pos');
      assert pgs[..i + 1] == pgs[..i] + [pgs[i]];
      r, pos := r + [row], pos';
    }
    assert pgs[..|pgs|] == pgs;
    forall id | id in next ensures Slots(pgs, r, id) == next[id] { SlotsSize(pgs, r, pgs, id); }
  }

  lemma AllTakenKeys(pgs: Groups, r: Groups, next: map<nat, seq<nat>>, pos: map<nat, nat>)
    requires AllTaken(pgs, r, next, pos)
    ensures pos.Keys == next.Keys
  {
  }

  /** `unfold_failure_domains`: every slot of a folded node gets a leaf of that node, the slots of each
      node are spread over its leaves, and a node whose slots were spread before keeps them all. */
  method UnfoldFailureDomains(tree: Tree, leaves: map<nat, seq<nat>>, pgs: Groups, prev: Groups) returns (r: Groups)
    requires Usable(tree, leaves, pgs)
    ensures Replaced(tree, leaves, pgs, r)
    ensures forall id :: id in leaves ==> Spread(tree, leaves[id], Slots(pgs, r, id))
    ensures forall id :: id in leaves && Spread(tree, leaves[id], Slots(pgs, Padded(pgs, prev), id)) ==>
              Slots(pgs, r, id) == Slots(pgs, Padded(pgs, prev), id)
  {
    if leaves == map[] {
      r := pgs;
      return;
    }
    ghost var padded := Padded(pgs, prev);
    var lists := CollectPrev(pgs, prev, leaves.Keys);
    forall id | id in leaves ensures Ready(tree, leaves[id], lists[id]) {
      UsableIsReady(tree, leaves, pgs, padded, id);
    }
    hide Slots, Distribution.Count, Spread, Usable, Ready, Done, Replaced;
    var next := DistributeAll(tree, leaves, lists);
    forall id | id in leaves ensures |next[id]| == |Slots(pgs, pgs, id)| {
      DoneFacts(tree, leaves[id], lists[id], next[id]);
      SlotsSize(pgs, padded, pgs, id);
    }
    r := MapGroups(pgs, next);
    forall id | id in leaves
      ensures Ready(tree, leaves[id], Slots(pgs, padded, id))
      ensures Done(tree, leaves[id], Slots(pgs, padded, id), Slots(pgs, r, id))
    {
    }
    AllReplaced(tree, leaves, pgs, padded, r);
  }

  lemma UsableIsReady(tree: Tree, leaves: map<nat, seq<nat>>, pgs: Groups, padded: Groups, id: nat)
    requires Usable(tree, leaves, pgs) && SameShape(pgs, padded) && id in leaves
    ensures Ready(tree, leaves[id], Slots(pgs, padded, id))
  {
    if Slots(pgs, padded, id) != [] { SlotsUsed(pgs, padded, id); }
  }

  lemma DoneFacts(tree: Tree, ids: seq<nat>, prev: seq<nat>, next: seq<nat>)
    requires Ready(tree, ids, prev) && Done(tree, ids, prev, next)
    ensures |next| == |prev| && (forall x :: x in ids ==> x in tree) && Spread(tree, ids, next)
    ensures Spread(tree, ids, prev) ==> next == prev
    ensures forall x :: x in next ==> x in ids && tree[x].size > 0.0
  {
  }

  lemma AllReplaced(tree: Tree, leaves: map<nat, seq<nat>>, pgs: Groups, padded: Groups, r: Groups)
    requires SameShape(pgs, padded) && SameShape(pgs, r)
    requires forall id :: id in leaves ==>
               && Ready(tree, leaves[id], Slots(pgs, padded, id))
               && Done(tree, leaves[id], Slots(pgs, padded, id), Slots(pgs, r, id))
    requires forall i, j :: 0 <= i < |pgs| && 0 <= j < |pgs[i]| && pgs[i][j] !in leaves ==> r[i][j] == pgs[i][j]
    ensures Replaced(tree, leaves, pgs, r)
    ensures forall id, x :: id in leaves && x in leaves[id] ==> x in tree
    ensures forall id :: id in leaves ==> Spread(tree, leaves[id], Slots(pgs, r, id))
    ensures forall id :: id in leaves && Spread(tree, leaves[id], Slots(pgs, padded, id)) ==>
      Slots(pgs, r, id) == Slots(pgs, padded, id)
  {
    hide Ready, Done, Slots, Spread, Distribution.Count;
    forall id | id in leaves
      ensures (forall x :: x in leaves[id] ==> x in tree) && Spread(tree, leaves[id], Slots(pgs, r, id))
              && (Spread(tree, leaves[id], Slots(pgs, padded, id)) ==> Slots(pgs, r, id) == Slots(pgs, padded, id))
    {
      DoneFacts(tree, leaves[id], Slots(pgs, padded, id), Slots(pgs, r, id));
    }
    forall i, j | 0 <= i < |pgs| && 0 <= j < |pgs[i]| && pgs[i][j] in leaves
      ensures r[i][j] in leaves[pgs[i][j]] && r[i][j] in tree && tree[r[i][j]].size > 0.0
    {
      SlotIn(pgs, r, i, j);
      DoneFacts(tree, leaves[pgs[i][j]], Slots(pgs, padded, pgs[i][j]), Slots(pgs, r, pgs[i][j]));
    }
  }

  // ----- fold_prev_pgs

  /** Which folded node each leaf is in. */
  method Unmap(leaves: map<nat, seq<nat>>) returns (unmap: map<nat, nat>)
    ensures forall x :: x in unmap ==> unmap[x] in leaves && x in leaves[unmap[x]]
    ensures forall id, x :: id in leaves && x in leaves[id] ==> x in unmap
  {
    unmap := map[];
    var rest := leaves.Keys;
    while rest != {}
      invariant rest <= leaves.Keys && forall x :: x in unmap ==> unmap[x] in leaves && x in leaves[unmap[x]]
      invariant forall id, x :: id in leaves.Keys - rest && x in leaves[id] ==> x in unmap
      decreases |rest|
    {
      var id := Least(rest);
      for k := 0 to |leaves[id]|
        invariant forall x :: x in unmap ==> unmap[x] in leaves && x in leaves[unmap[x]]
        invariant forall id', x :: id' in leaves.Keys - rest && x in leaves[id'] ==> x in unmap
        invariant forall h :: 0 <= h < k ==> leaves[id][h] in unmap
      {
        unmap := unmap[leaves[id][k] := id];
      }
      rest := rest - {id};
    }
  }

  /** Leaves are replaced by the folded nodes they are in, others stay. */
  ghost predicate Refolded(leaves: map<nat, seq<nat>>, pgs: Groups, r: Groups) {
    && SameShape(pgs, r)
    && forall i, j :: 0 <= i < |pgs| && 0 <= j < |pgs[i]| ==> InNode(leaves, pgs[i][j], r[i][j])
  }

  ghost predicate InNode(leaves: map<nat, seq<nat>>, x: nat, id: nat) {
    (id in leaves && x in leaves[id]) || (id == x && forall k :: k in leaves ==> x !in leaves[k])
  }

  method FoldPrevPgs(pgs: Groups, leaves: map<nat, seq<nat>>) returns (r: Groups)
    ensures Refolded(leaves, pgs, r)
  {
    var unmap := Unmap(leaves);
    r := [];
    for i := 0 to |pgs|
      invariant |r| == i && forall k :: 0 <= k < i ==> |r[k]| == |pgs[k]|
      invariant forall k, j :: 0 <= k < i && 0 <= j < |pgs[k]| ==> InNode(leaves, pgs[k][j], r[k][j])
    {
      var row := seq(|pgs[i]|, j requires 0 <= j < |pgs[i]| => if pgs[i][j] in unmap then unmap[pgs[i][j]]
          else pgs[i][j]);
      r := r + [row];
    }
  }

  // ----- there and back

  /** A leaf is in no other node than the one that stands for it. */
  lemma NodeOf(f: Folded, home: map<nat, nat>, id: nat, x: nat, node: nat)
    requires Sound(f, home) && id in Leaves(f.tree) && x in Expand(f, id) && InNode(f.extracted, x, node)
    ensures node == id
  {
    hide Leaves, NoDup;
    if node in f.extracted && x in f.extracted[node] {
      assert Separate(f, home) && node in Leaves(f.tree) && x in Expand(f, node);
      assert home[x] == node && home[x] == id;
    }
  }

  /** A chunk goes to a leaf below the original node that its folded node is in the place of, so chunks
      on different folded nodes go to different leaves. */
  lemma StaysBelow(tree: Tree, interest: set<nat>, f: Folded, home: map<nat, nat>, origin: map<nat, nat>, pgs: Groups,
          u: Groups, i: nat, j: nat)
    requires Keeps(tree, interest, f, home, origin) && Replaced(tree, f.extracted, pgs, u)
    requires i < |pgs| && j < |pgs[i]| && pgs[i][j] in Leaves(f.tree)
    ensures u[i][j] in home && home[u[i][j]] == pgs[i][j]
    ensures pgs[i][j] in origin && Under(tree, u[i][j], origin[pgs[i][j]])
  {
    hide Leaves, NoDup, AllWeighed;
    assert Separate(f, home) && u[i][j] in Expand(f, pgs[i][j]);
  }

  /** The folded form of groups on original leaves: each leaf's home. */
  lemma RefoldedIsHome(f: Folded, home: map<nat, nat>, pgs: Groups, r: Groups)
    requires Sound(f, home) && Refolded(f.extracted, pgs, r)
    ensures forall i, j :: 0 <= i < |pgs| && 0 <= j < |pgs[i]| && pgs[i][j] in home ==> r[i][j] == home[pgs[i][j]]
  {
    hide Leaves, NoDup;
    forall i, j | 0 <= i < |pgs| && 0 <= j < |pgs[i]| && pgs[i][j] in home ensures r[i][j] == home[pgs[i][j]] {
      NodeOf(f, home, home[pgs[i][j]], pgs[i][j], r[i][j]);
    }
  }

  /** Unfolded groups on leaves of the folded tree fold to what they were. */
  lemma UnfoldThenFold(tree: Tree, f: Folded, home: map<nat, nat>, pgs: Groups, u: Groups, r: Groups)
    requires Sound(f, home) && Replaced(tree, f.extracted, pgs, u) && Refolded(f.extracted, u, r)
    requires forall i, j :: 0 <= i < |pgs| && 0 <= j < |pgs[i]| ==> pgs[i][j] in Leaves(f.tree)
    ensures r == pgs
  {
    hide Leaves, NoDup, Sound;
    forall i, j | 0 <= i < |pgs| && 0 <= j < |pgs[i]| ensures r[i][j] == pgs[i][j] {
      NodeOf(f, home, pgs[i][j], u[i][j], r[i][j]);
    }
    forall i | 0 <= i < |pgs| ensures r[i] == pgs[i] { assert |r[i]| == |u[i]| == |pgs[i]|; }
  }

  /** Groups on original leaves that are spread over every folded node come back unchanged when they
      are folded and unfolded. */
  lemma FoldThenUnfold(tree: Tree, f: Folded, home: map<nat, nat>, prev: Groups, pgs: Groups, u: Groups)
    requires Sound(f, home) && Refolded(f.extracted, prev, pgs) && Replaced(tree, f.extracted, pgs, u)
    requires forall i, j :: 0 <= i < |prev| && 0 <= j < |prev[i]| ==> prev[i][j] in home
    requires forall id :: id in f.extracted ==> Slots(pgs, u, id) == Slots(pgs, Padded(pgs, prev), id)
    ensures u == prev
  {
    hide Leaves, NoDup;
    assert Padded(pgs, prev) == prev by {
      forall i | 0 <= i < |prev| ensures PaddedRow(pgs[i], prev, i) == prev[i] {}
    }
    forall i, j | 0 <= i < |pgs| && 0 <= j < |pgs[i]| && pgs[i][j] !in f.extracted.Keys ensures u[i][j] == prev[i][j] {
      assert InNode(f.extracted, prev[i][j], pgs[i][j]);
    }
    SlotsSame(pgs, u, prev, f.extracted.Keys);
  }
}
