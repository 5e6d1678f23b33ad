/** Redistribution of slots over items by weight: an exchange loop that ends with the best possible
    balance, on exact weights. */
module Distribution {

  /** Item `k` has the slots `lists[k]`. */
  type Lists = seq<seq<nat>>

  function Abs(x: real): real { if x < 0.0 then -x else x }

  function Lens(lists: Lists): (v: seq<nat>)
    ensures |v| == |lists| && forall k :: 0 <= k < |v| ==> v[k] == |lists[k]|
  {
    seq(|lists|, k requires 0 <= k < |lists| => |lists[k]|)
  }

  // ----- sums

  function Sum(v: seq<real>): real { if v == [] then 0.0 else Sum(v[..|v| - 1]) + v[|v| - 1] }

  lemma {:induction false} SumSet(v: seq<real>, i: nat, x: real)
    requires i < |v|
    ensures Sum(v[i := x]) == Sum(v) - v[i] + x
  {
    var n := |v| - 1;
    if i < n {
      SumSet(v[..n], i, x);
      assert v[i := x][..n] == v[..n][i := x];
    } else {
      assert v[i := x][..n] == v[..n];
    }
  }

  lemma {:induction false} SumZero(v: seq<real>)
    requires forall i :: 0 <= i < |v| ==> v[i] == 0.0
    ensures Sum(v) == 0.0
  {
    if v != [] { SumZero(v[..|v| - 1]); }
  }

  /** If nothing is positive but the sum is zero, everything is zero. */
  lemma {:induction false} SumNonPositive(v: seq<real>, i: nat)
    requires i < |v| && (forall k :: 0 <= k < |v| ==> v[k] <= 0.0)
    ensures Sum(v) <= v[i]
  {
    if i < |v| - 1 { SumNonPositive(v[..|v| - 1], i); } else if |v| > 1 { SumNonPositive(v[..|v| - 1], 0); }
  }

  lemma {:induction false} SumNonNegativeAt(v: seq<real>, i: nat)
    requires i < |v| && (forall k :: 0 <= k < |v| ==> v[k] >= 0.0)
    ensures Sum(v) >= v[i]
  {
    if i < |v| - 1 { SumNonNegativeAt(v[..|v| - 1], i); } else if |v| > 1 { SumNonNegativeAt(v[..|v| - 1], 0); }
  }

  /** How much more each item has than its target. */
  function Diffs(lens: seq<nat>, targets: seq<real>): (v: seq<real>)
    requires |lens| == |targets|
    ensures |v| == |lens| && forall k :: 0 <= k < |v| ==> v[k] == lens[k] as real - targets[k]
  {
    seq(|lens|, k requires 0 <= k < |lens| == |targets| => lens[k] as real - targets[k])
  }

  function AbsAll(v: seq<real>): (r: seq<real>)
    ensures |r| == |v| && forall k :: 0 <= k < |v| ==> r[k] == Abs(v[k])
  {
    seq(|v|, k requires 0 <= k < |v| => Abs(v[k]))
  }

  /** The total deviation, which every exchange decreases. */
  function Deviation(lens: seq<nat>, targets: seq<real>): real
    requires |lens| == |targets|
  {
    Sum(AbsAll(Diffs(lens, targets)))
  }

  // ----- the helper array

  /** `arr` lists each item with a positive target once. */
  predicate Indexes(arr: seq<nat>, targets: seq<real>) {
    && (forall i :: 0 <= i < |arr| ==> arr[i] < |targets| && targets[arr[i]] > 0.0)
    && (forall i, j :: 0 <= i < j < |arr| ==> arr[i] != arr[j])
    && forall k :: 0 <= k < |targets| && targets[k] > 0.0 ==> k in arr
  }

  predicate Sorted(arr: seq<nat>, d: seq<real>) {
    && (forall i :: 0 <= i < |arr| ==> arr[i] < |d|)
    && forall i, j :: 0 <= i < j < |arr| ==> d[arr[i]] <= d[arr[j]]
  }

  /** Where the element at `i` comes from when the one at `from` moves to `to`. */
  function Origin(i: nat, from: nat, to: nat): int {
    if i == to then from else if from <= i < to then i + 1 else if to < i <= from then i - 1 else i
  }

  ghost predicate Shifted(arr: seq<nat>, r: seq<nat>, from: nat, to: nat) {
    |r| == |arr| && from < |arr| && to < |arr| && forall i :: 0 <= i < |arr| ==> r[i] == arr[Origin(i, from, to)]
  }

  lemma ShiftedIndexes(arr: seq<nat>, r: seq<nat>, from: nat, to: nat, targets: seq<real>)
    requires Indexes(arr, targets) && Shifted(arr, r, from, to)
    ensures Indexes(r, targets)
  {
    forall k | 0 <= k < |targets| && targets[k] > 0.0 ensures k in r {
      var i :| 0 <= i < |arr| && arr[i] == k;
      assert r[Origin(i, to, from)] == k;
    }
    forall i, j | 0 <= i < j < |r| ensures r[i] != r[j] {
      assert Origin(i, from, to) != Origin(j, from, to);
    }
  }

  /** `move_leftmost`: the first item moves right past everything that is not greater. */
  method MoveLeftmost(arr: seq<nat>, d: seq<real>) returns (r: seq<nat>, to: nat)
    requires arr != [] && forall i :: 0 <= i < |arr| ==> arr[i] < |d|
    ensures to < |arr| && Shifted(arr, r, 0, to)
    ensures (forall i :: 0 < i <= to ==> d[arr[i]] <= d[arr[0]]) && (to + 1 < |arr| ==> d[arr[to + 1]] > d[arr[0]])
  {
    to := 0;
    while to < |arr| - 1 && d[arr[to + 1]] <= d[arr[0]]
      invariant to < |arr| && forall i :: 0 < i <= to ==> d[arr[i]] <= d[arr[0]]
    {
      to := to + 1;
    }
    r := arr;
    for i := 0 to to
      invariant |r| == |arr| && (forall k :: 0 <= k < i ==> r[k] == arr[k + 1])
      invariant forall k :: i <= k < |arr| ==> r[k] == arr[k]
    {
      r := r[i := arr[i + 1]];
    }
    r := r[to := arr[0]];
    assert forall i :: 0 <= i < |arr| ==> r[i] == arr[Origin(i, 0, to)];
  }

  /** `move_rightmost`: the last item moves left past everything that is greater. */
  method MoveRightmost(arr: seq<nat>, d: seq<real>) returns (r: seq<nat>, to: nat)
    requires arr != [] && forall i :: 0 <= i < |arr| ==> arr[i] < |d|
    ensures to < |arr| && Shifted(arr, r, |arr| - 1, to)
    ensures forall i :: to <= i < |arr| - 1 ==> d[arr[i]] > d[arr[|arr| - 1]]
    ensures to > 0 ==> d[arr[to - 1]] <= d[arr[|arr| - 1]]
  {
    var n := |arr| - 1;
    to := n;
    while to > 0 && d[arr[to - 1]] > d[arr[n]]
      invariant to <= n && forall i :: to <= i < n ==> d[arr[i]] > d[arr[n]]
    {
      to := to - 1;
    }
    r := arr;
    var i := n;
    while i > to
      invariant to <= i <= n && |r| == |arr|
      invariant (forall k :: i < k <= n ==> r[k] == arr[k - 1]) && forall k :: 0 <= k <= i ==> r[k] == arr[k]
    {
      r := r[i := arr[i - 1]];
      i := i - 1;
    }
    r := r[to := arr[n]];
  }

  /** After the first item has gained, moving it right restores the order. */
  lemma LeftSorted(arr: seq<nat>, d: seq<real>, d': seq<real>, r: seq<nat>, to: nat)
    requires arr != [] && Sorted(arr, d) && |d'| == |d| && (forall i, j :: 0 <= i < j < |arr| ==> arr[i] != arr[j])
    requires forall i :: 0 < i < |arr| ==> d'[arr[i]] == d[arr[i]]
    requires to < |arr| && Shifted(arr, r, 0, to)
    requires (forall i :: 0 < i <= to ==> d'[arr[i]] <= d'[arr[0]]) && (to + 1 < |arr| ==> d'[arr[to + 1]] > d'[arr[0]])
    ensures Sorted(r, d')
  {
    forall i, j | 0 <= i < j < |r| ensures d'[r[i]] <= d'[r[j]] {
      var a, b := Origin(i, 0, to), Origin(j, 0, to);
      if a > 0 && b > 0 { assert d[arr[a]] <= d[arr[b]]; }
      else if a == 0 && b > to + 1 { assert d[arr[to + 1]] <= d[arr[b]]; }
    }
  }

  /** All differences are within one of each other. */
  ghost predicate Tight(arr: seq<nat>, d: seq<real>) {
    && (forall i :: 0 <= i < |arr| ==> arr[i] < |d|)
    && forall i, j :: 0 <= i < |arr| && 0 <= j < |arr| ==> d[arr[i]] - d[arr[j]] <= 1.0
  }

  /** An exchange helps exactly when the first item lacks, the last one has too much, and they are more
      than one apart. */
  lemma HelpsIff(first: real, last: real)
    ensures Abs(first + 1.0) + Abs(last - 1.0) < Abs(first) + Abs(last) <==> first < 0.0 < last && last - first > 1.0
  {
  }

  /** The first item has gained one and the last one lost one. */
  predicate Exchanged(arr: seq<nat>, d: seq<real>, d': seq<real>)
    requires |arr| > 1 && forall i :: 0 <= i < |arr| ==> arr[i] < |d|
  {
    var first, last := arr[0], arr[|arr| - 1];
    && first != last && |d'| == |d| && d'[first] == d[first] + 1.0 && d'[last] == d[last] - 1.0
    && forall k :: 0 <= k < |d| && k != first && k != last ==> d'[k] == d[k]
  }

  /** If the first item passes even the last one, everything is within one: this was the last exchange. */
  lemma PassedAll(arr: seq<nat>, d: seq<real>, d': seq<real>)
    requires |arr| > 1 && Sorted(arr, d) && Exchanged(arr, d, d') && d[arr[|arr| - 1]] - d[arr[0]] > 1.0
    requires forall i, j :: 0 <= i < j < |arr| ==> arr[i] != arr[j]
    requires forall i :: 0 < i < |arr| ==> d'[arr[i]] <= d'[arr[0]]
    ensures Tight(arr, d')
  {
    forall i | 0 <= i < |arr| ensures d[arr[0]] <= d'[arr[i]] <= d[arr[0]] + 1.0 {
      if 0 < i < |arr| - 1 { assert d[arr[0]] <= d[arr[i]]; }
    }
  }

  lemma TightShifted(arr: seq<nat>, r: seq<nat>, from: nat, to: nat, d: seq<real>)
    requires Tight(arr, d) && Shifted(arr, r, from, to)
    ensures Tight(r, d)
  {
  }

  /** Otherwise both moves together restore the order. */
  lemma BothSorted(arr: seq<nat>, d: seq<real>, d': seq<real>, r1: seq<nat>, to1: nat, r2: seq<nat>, to2: nat)
    requires |arr| > 1 && Sorted(arr, d) && Exchanged(arr, d, d') && to1 < |arr| - 1
    requires forall i, j :: 0 <= i < j < |arr| ==> arr[i] != arr[j]
    requires Shifted(arr, r1, 0, to1) && (forall i :: 0 < i <= to1 ==> d'[arr[i]] <= d'[arr[0]])
    requires d'[arr[to1 + 1]] > d'[arr[0]]
    requires Shifted(r1, r2, |r1| - 1, to2) && (forall i :: to2 <= i < |r1| - 1 ==> d'[r1[i]] > d'[r1[|r1| - 1]])
    requires to2 > 0 ==> d'[r1[to2 - 1]] <= d'[r1[|r1| - 1]]
    ensures Sorted(r2, d')
  {
    var n := |arr| - 1;
    assert r1[n] == arr[n];
    assert FrontSorted(r1, d') by { LeftFront(arr, d, d', r1, to1); }
    forall i, j | 0 <= i < j < |r2| ensures d'[r2[i]] <= d'[r2[j]] {
      var a, b := Origin(i, n, to2), Origin(j, n, to2);
      if b == n && a < to2 - 1 { assert d'[r1[a]] <= d'[r1[to2 - 1]]; }
      else if a != n && b != n { assert d'[r1[a]] <= d'[r1[b]]; }
    }
  }

  /** All but the last element are in order. */
  ghost predicate FrontSorted(arr: seq<nat>, d: seq<real>) {
    && (forall i :: 0 <= i < |arr| ==> arr[i] < |d|)
    && forall i, j :: 0 <= i < j < |arr| - 1 ==> d[arr[i]] <= d[arr[j]]
  }

  lemma LeftFront(arr: seq<nat>, d: seq<real>, d': seq<real>, r: seq<nat>, to: nat)
    requires |arr| > 1 && Sorted(arr, d) && Exchanged(arr, d, d') && to < |arr| - 1
    requires forall i, j :: 0 <= i < j < |arr| ==> arr[i] != arr[j]
    requires Shifted(arr, r, 0, to) && (forall i :: 0 < i <= to ==> d'[arr[i]] <= d'[arr[0]])
    requires d'[arr[to + 1]] > d'[arr[0]]
    ensures FrontSorted(r, d')
  {
    forall i, j | 0 <= i < j < |r| - 1 ensures d'[r[i]] <= d'[r[j]] {
      var a, b := Origin(i, 0, to), Origin(j, 0, to);
      if a > 0 && b > 0 { assert d[arr[a]] <= d[arr[b]]; }
      else if a == 0 && b > to + 1 { assert d[arr[to + 1]] <= d[arr[b]]; }
    }
  }

  // ----- slots

  /** How many times slot `x` is in the lists. */
  function Holds(lists: Lists, x: nat): nat {
    if lists == [] then 0 else Holds(lists[..|lists| - 1], x) + multiset(lists[|lists| - 1])[x]
  }

  function Size(lists: Lists): nat {
    if lists == [] then 0 else Size(lists[..|lists| - 1]) + |lists[|lists| - 1]|
  }

  lemma {:induction false} ListSet(lists: Lists, i: nat, l: seq<nat>, x: nat)
    requires i < |lists|
    ensures Holds(lists[i := l], x) == Holds(lists, x) - multiset(lists[i])[x] + multiset(l)[x]
    ensures Size(lists[i := l]) == Size(lists) - |lists[i]| + |l|
  {
    var n := |lists| - 1;
    if i < n {
      ListSet(lists[..n], i, l, x);
      assert lists[i := l][..n] == lists[..n][i := l];
    } else {
      assert lists[i := l][..n] == lists[..n];
    }
  }

  /** Every one of the first `n` slots is in exactly one list, once. */
  ghost predicate Partition(lists: Lists, n: nat) {
    Size(lists) == n && forall x: nat :: Holds(lists, x) == if x < n then 1 else 0
  }

  /** A slot moves from the list of `a` to the list of `b`. */
  lemma PartitionMove(lists: Lists, a: nat, la: seq<nat>, b: nat, y: nat, n: nat)
    requires a < |lists| && b < |lists| && a != b && Partition(lists, n)
    requires |lists[a]| == |la| + 1 && multiset(lists[a]) == multiset(la) + multiset{y}
    ensures Partition(lists[a := la][b := lists[b] + [y]], n)
  {
    var lists' := lists[a := la][b := lists[b] + [y]];
    forall x: nat ensures Holds(lists', x) == Holds(lists, x) && Size(lists') == Size(lists) {
      ListSet(lists, a, la, x);
      ListSet(lists[a := la], b, lists[b] + [y], x);
    }
    assert Holds(lists', 0) == Holds(lists, 0);
  }

  lemma {:induction false} SumLens(lists: Lists, targets: seq<real>)
    requires |lists| == |targets|
    ensures Sum(Diffs(Lens(lists), targets)) == Size(lists) as real - Sum(targets)
    ensures forall k :: 0 <= k < |lists| ==> |lists[k]| <= Size(lists)
  {
    if lists != [] {
      var n := |lists| - 1;
      SumLens(lists[..n], targets[..n]);
      assert Diffs(Lens(lists), targets)[..n] == Diffs(Lens(lists[..n]), targets[..n]);
      forall k | 0 <= k < |lists| ensures |lists[k]| <= Size(lists) {
        if k < n { assert lists[..n][k] == lists[k]; }
      }
    }
  }

  // ----- the exchange

  /** The lists after the last slot of `from` is given to `to`. */
  function Given(lists: Lists, from: nat, to: nat): Lists
    requires from < |lists| && to < |lists| && lists[from] != []
  {
    var l := lists[from];
    lists[from := l[..|l| - 1]][to := lists[to] + [l[|l| - 1]]]
  }

  lemma GivenPartition(lists: Lists, from: nat, to: nat, n: nat)
    requires from < |lists| && to < |lists| && from != to && lists[from] != [] && Partition(lists, n)
    ensures Partition(Given(lists, from, to), n)
  {
    var l := lists[from];
    assert l == l[..|l| - 1] + [l[|l| - 1]];
    PartitionMove(lists, from, l[..|l| - 1], to, l[|l| - 1], n);
  }

  lemma GivenExchanged(lists: Lists, targets: seq<real>, arr: seq<nat>)
    requires |lists| == |targets| && |arr| > 1 && Indexes(arr, targets) && lists[arr[|arr| - 1]] != []
    ensures Exchanged(arr, Diffs(Lens(lists), targets), Diffs(Lens(Given(lists, arr[|arr| - 1], arr[0])), targets))
  {
  }

  /** A helpful exchange decreases the total deviation. */
  lemma ExchangeDecreases(arr: seq<nat>, d: seq<real>, d': seq<real>)
    requires |arr| > 1 && (forall i :: 0 <= i < |arr| ==> arr[i] < |d|) && Exchanged(arr, d, d')
    requires d[arr[0]] < 0.0 < d[arr[|arr| - 1]] && d[arr[|arr| - 1]] - d[arr[0]] > 1.0
    ensures Sum(AbsAll(d')) < Sum(AbsAll(d)) && Sum(d') == Sum(d)
  {
    var first, last := arr[0], arr[|arr| - 1];
    HelpsIff(d[first], d[last]);
    var v := AbsAll(d);
    assert AbsAll(d') == v[first := Abs(d'[first])][last := Abs(d'[last])];
    SumSet(v, first, Abs(d'[first]));
    SumSet(v[first := Abs(d'[first])], last, Abs(d'[last]));
    assert d' == d[first := d'[first]][last := d'[last]];
    SumSet(d, first, d'[first]);
    SumSet(d[first := d'[first]], last, d'[last]);
  }

  /** Where the loop stops the distribution is as even as whole slots allow. */
  lemma StopsTight(arr: seq<nat>, d: seq<real>, targets: seq<real>)
    requires |d| == |targets| && Indexes(arr, targets) && Sorted(arr, d) && Sum(d) == 0.0 && |arr| > 1
    requires forall k :: 0 <= k < |d| && !(targets[k] > 0.0) ==> d[k] == 0.0
    requires !(d[arr[0]] < 0.0 < d[arr[|arr| - 1]] && d[arr[|arr| - 1]] - d[arr[0]] > 1.0)
    ensures Tight(arr, d)
  {
    var lo, hi := d[arr[0]], d[arr[|arr| - 1]];
    forall i | 0 <= i < |arr| ensures lo <= d[arr[i]] <= hi { }
    forall k | 0 <= k < |d| ensures d[k] == 0.0 || lo <= d[k] <= hi {
      if targets[k] > 0.0 { var i :| 0 <= i < |arr| && arr[i] == k; }
    }
    if lo >= 0.0 { SumNonNegativeAt(d, arr[|arr| - 1]); }
    if hi <= 0.0 { SumNonPositive(d, arr[0]); }
  }

  // ----- termination

  /** All vectors of `m` numbers up to `n`. */
  ghost function Vecs(m: nat, n: nat): set<seq<nat>> {
    if m == 0 then {[]} else set v, x: nat | v in Vecs(m - 1, n) && x <= n :: v + [x]
  }

  lemma {:induction false} VecIn(v: seq<nat>, n: nat)
    requires forall k :: 0 <= k < |v| ==> v[k] <= n
    ensures v in Vecs(|v|, n)
  {
    if v != [] {
      VecIn(v[..|v| - 1], n);
      assert v == v[..|v| - 1] + [v[|v| - 1]];
    }
  }

  // ----- the phases

  /** Items with a positive target are listed in `arr`, every slot is with some item. */
  ghost predicate Placed(lists: Lists, targets: seq<real>, arr: seq<nat>, n: nat) {
    |lists| == |targets| && Indexes(arr, targets) && Partition(lists, n)
  }

  ghost predicate InOrder(lists: Lists, targets: seq<real>, arr: seq<nat>)
    requires |lists| == |targets|
  {
    Sorted(arr, Diffs(Lens(lists), targets))
  }

  /** Of its slots an item keeps at least as many as its target allows, from the first one on. */
  ghost predicate Stays(l0: seq<nat>, l: seq<nat>, t: real) {
    forall m: nat :: m <= |l0| && m as real <= t ==> KeepsFirst(l0, l, m)
  }

  predicate KeepsFirst(l0: seq<nat>, l: seq<nat>, m: nat) { m <= |l0| && m <= |l| && l[..m] == l0[..m] }

  ghost predicate AllStay(lists0: Lists, lists: Lists, targets: seq<real>) {
    && |lists0| == |lists| == |targets|
    && forall k :: 0 <= k < |targets| && targets[k] > 0.0 ==> Stays(lists0[k], lists[k], targets[k])
  }

  lemma StaysPush(l0: seq<nat>, l: seq<nat>, t: real, x: nat)
    requires Stays(l0, l, t)
    ensures Stays(l0, l + [x], t)
  {
    forall m: nat | m <= |l0| && m as real <= t ensures KeepsFirst(l0, l + [x], m) {
      assert KeepsFirst(l0, l, m);
    }
  }

  /** Only who has more than the target gives something away. */
  lemma StaysPop(l0: seq<nat>, l: seq<nat>, t: real)
    requires Stays(l0, l, t) && l != [] && |l| as real > t
    ensures Stays(l0, l[..|l| - 1], t)
  {
    var l' := l[..|l| - 1];
    forall m: nat | m <= |l0| && m as real <= t ensures KeepsFirst(l0, l', m) {
      assert KeepsFirst(l0, l, m);
    }
  }

  lemma AllStayOne(lists0: Lists, lists: Lists, targets: seq<real>, k: nat, l: seq<nat>)
    requires AllStay(lists0, lists, targets) && k < |lists|
    requires targets[k] > 0.0 ==> Stays(lists0[k], l, targets[k])
    ensures AllStay(lists0, lists[k := l], targets)
  {
    hide Stays;
  }

  lemma AllStayStart(lists: Lists, targets: seq<real>)
    requires |lists| == |targets|
    ensures AllStay(lists, lists, targets)
  {
  }

  /** One slot of an item without a target goes to the item that lacks most. */
  method MoveOne(lists: Lists, targets: seq<real>, arr: seq<nat>, k: nat, ghost n: nat, ghost lists0: Lists)
      returns (lists': Lists, arr': seq<nat>)
    requires Placed(lists, targets, arr, n) && InOrder(lists, targets, arr) && arr != []
    requires k < |lists| && !(targets[k] > 0.0) && lists[k] != [] && AllStay(lists0, lists, targets)
    ensures AllStay(lists0, lists', targets)
    ensures Placed(lists', targets, arr', n) && InOrder(lists', targets, arr') && arr' != []
    ensures |lists'[k]| == |lists[k]| - 1
    ensures forall i :: 0 <= i < |lists| && i != k && !(targets[i] > 0.0) ==> lists'[i] == lists[i]
  {
    hide Partition, Shifted, Sorted, AllStay, Stays;
    var to, l := arr[0], lists[k];
    lists' := lists[k := l[1..]][to := lists[to] + [l[0]]];
    StayPushed(lists0, lists, targets, k, l[1..], to, l[0]);
    assert l == [l[0]] + l[1..];
    PartitionMove(lists, k, l[1..], to, l[0], n);
    ghost var d := Diffs(Lens(lists), targets);
    var d' := Diffs(Lens(lists'), targets);
    var pos;
    arr', pos := MoveLeftmost(arr, d');
    ShiftedIndexes(arr, arr', 0, pos, targets);
    LeftSorted(arr, d, d', arr', pos);
  }

  lemma StayPushed(lists0: Lists, lists: Lists, targets: seq<real>, k: nat, l: seq<nat>, to: nat, x: nat)
    requires AllStay(lists0, lists, targets) && k < |lists| && to < |lists| && !(targets[k] > 0.0) && targets[to] > 0.0
    ensures AllStay(lists0, lists[k := l][to := lists[to] + [x]], targets)
  {
    hide Stays;
    AllStayOne(lists0, lists, targets, k, l);
    StaysPush(lists0[to], lists[to], targets[to], x);
    AllStayOne(lists0, lists[k := l], targets, to, lists[to] + [x]);
  }

  /** Items without a target lose all their slots, the others none. */
  method MoveAway(lists: Lists, targets: seq<real>, arr: seq<nat>, ghost n: nat) returns (lists': Lists, arr': seq<nat>)
    requires Placed(lists, targets, arr, n) && InOrder(lists, targets, arr) && arr != []
    ensures AllStay(lists, lists', targets)
    ensures Placed(lists', targets, arr', n) && InOrder(lists', targets, arr') && arr' != []
    ensures forall i :: 0 <= i < |lists'| && !(targets[i] > 0.0) ==> lists'[i] == []
    ensures (forall i :: 0 <= i < |lists| && !(targets[i] > 0.0) ==> lists[i] == []) ==> lists' == lists
  {
    hide Placed, InOrder, AllStay;
    PlacedSize(lists, targets, arr, n);
    AllStayStart(lists, targets);
    ghost var clear := forall i :: 0 <= i < |lists| && !(targets[i] > 0.0) ==> lists[i] == [];
    lists', arr' := lists, arr;
    for k := 0 to |lists|
      invariant |lists'| == |lists| == |targets| && Placed(lists', targets, arr', n) && InOrder(lists', targets, arr')
      invariant arr' != [] && AllStay(lists, lists', targets)
      invariant forall i :: 0 <= i < k && !(targets[i] > 0.0) ==> lists'[i] == []
      invariant clear ==> lists' == lists
    {
      if !(targets[k] > 0.0) {
        while lists'[k] != []
          invariant |lists'| == |lists| && Placed(lists', targets, arr', n) && InOrder(lists', targets, arr')
          invariant arr' != [] && AllStay(lists, lists', targets)
          invariant forall i :: 0 <= i < k && !(targets[i] > 0.0) ==> lists'[i] == []
          invariant clear ==> lists' == lists
          decreases |lists'[k]|
        {
          lists', arr' := MoveOne(lists', targets, arr', k, n, lists);
          PlacedSize(lists', targets, arr', n);
        }
      }
    }
  }

  lemma PlacedSize(lists: Lists, targets: seq<real>, arr: seq<nat>, n: nat)
    requires Placed(lists, targets, arr, n)
    ensures |lists| == |targets|
  {
  }

  /** The order of the helper array, or what makes it needless. */
  ghost predicate Usable(lists: Lists, targets: seq<real>, arr: seq<nat>)
    requires |lists| == |targets|
  {
    var d := Diffs(Lens(lists), targets);
    Sorted(arr, d) || Tight(arr, d)
  }

  /** `move_leftmost` and `move_rightmost` after an exchange. */
  method Reorder(arr: seq<nat>, ghost d: seq<real>, d': seq<real>, ghost targets: seq<real>) returns (arr': seq<nat>)
    requires |arr| > 1 && Indexes(arr, targets) && Sorted(arr, d) && Exchanged(arr, d, d')
    requires d[arr[|arr| - 1]] - d[arr[0]] > 1.0
    ensures |arr'| == |arr| && Indexes(arr', targets) && (Sorted(arr', d') || Tight(arr', d'))
  {
    var r1, to1 := MoveLeftmost(arr, d');
    ShiftedIndexes(arr, r1, 0, to1, targets);
    var to2;
    arr', to2 := MoveRightmost(r1, d');
    ShiftedIndexes(r1, arr', |r1| - 1, to2, targets);
    hide Shifted;
    if to1 == |arr| - 1 {
      PassedAll(arr, d, d');
      TightShifted(arr, r1, 0, to1, d');
      TightShifted(r1, arr', |r1| - 1, to2, d');
    } else {
      BothSorted(arr, d, d', r1, to1, arr', to2);
    }
  }

  lemma ReadyToGive(lists: Lists, targets: seq<real>, arr: seq<nat>)
    requires |lists| == |targets| && Indexes(arr, targets) && Usable(lists, targets, arr) && |arr| > 1
    requires var d := Diffs(Lens(lists), targets);
             d[arr[0]] < 0.0 < d[arr[|arr| - 1]] && d[arr[|arr| - 1]] - d[arr[0]] > 1.0
    ensures Sorted(arr, Diffs(Lens(lists), targets)) && lists[arr[|arr| - 1]] != [] && arr[0] != arr[|arr| - 1]
  {
  }

  lemma StayGiven(lists0: Lists, lists: Lists, targets: seq<real>, from: nat, to: nat)
    requires AllStay(lists0, lists, targets) && from < |lists| && to < |lists| && from != to && lists[from] != []
    requires |lists[from]| as real > targets[from]
    ensures AllStay(lists0, Given(lists, from, to), targets)
  {
    hide Stays;
    var l := lists[from];
    if targets[from] > 0.0 { StaysPop(lists0[from], l, targets[from]); }
    AllStayOne(lists0, lists, targets, from, l[..|l| - 1]);
    if targets[to] > 0.0 { StaysPush(lists0[to], lists[to], targets[to], l[|l| - 1]); }
    AllStayOne(lists0, lists[from := l[..|l| - 1]], targets, to, lists[to] + [l[|l| - 1]]);
  }

  /** One exchange of the second loop. */
  method Exchange(lists: Lists, targets: seq<real>, arr: seq<nat>, ghost n: nat, ghost lists0: Lists)
      returns (lists': Lists, arr': seq<nat>)
    requires Placed(lists, targets, arr, n) && Usable(lists, targets, arr) && |arr| > 1
    requires var d := Diffs(Lens(lists), targets);
             d[arr[0]] < 0.0 < d[arr[|arr| - 1]] && d[arr[|arr| - 1]] - d[arr[0]] > 1.0
    requires AllStay(lists0, lists, targets)
    ensures AllStay(lists0, lists', targets)
    ensures Placed(lists', targets, arr', n) && Usable(lists', targets, arr') && |arr'| == |arr|
    ensures Deviation(Lens(lists'), targets) < Deviation(Lens(lists), targets)
    ensures Sum(Diffs(Lens(lists'), targets)) == Sum(Diffs(Lens(lists), targets))
    ensures forall i :: 0 <= i < |lists| && !(targets[i] > 0.0) ==> lists'[i] == lists[i]
  {
    var first, last := arr[0], arr[|arr| - 1];
    ghost var d := Diffs(Lens(lists), targets);
    ReadyToGive(lists, targets, arr);
    lists' := Given(lists, last, first);
    StayGiven(lists0, lists, targets, last, first);
    GivenPartition(lists, last, first, n);
    GivenExchanged(lists, targets, arr);
    assert forall i :: 0 <= i < |lists| && !(targets[i] > 0.0) ==> lists'[i] == lists[i];
    hide Sum, AbsAll, Sorted, Tight, Partition, Exchanged;
    var d' := Diffs(Lens(lists'), targets);
    ExchangeDecreases(arr, d, d');
    arr' := Reorder(arr, d, d', targets);
  }

  /** The slots are as even as they can be: no two items differ by more than one in what they have
      beyond their target. */
  ghost predicate Even(lens: seq<nat>, targets: seq<real>) {
    |lens| == |targets| && forall i, j :: 0 <= i < |lens| && 0 <= j < |lens| && targets[i] > 0.0 && targets[j] > 0.0 ==>
      (lens[i] as real - targets[i]) - (lens[j] as real - targets[j]) <= 1.0
  }

  lemma TightIsEven(lens: seq<nat>, targets: seq<real>, arr: seq<nat>)
    requires |lens| == |targets| && Indexes(arr, targets) && Tight(arr, Diffs(lens, targets))
    ensures Even(lens, targets)
  {
    var d := Diffs(lens, targets);
    forall i, j | 0 <= i < |lens| && 0 <= j < |lens| && targets[i] > 0.0 && targets[j] > 0.0
      ensures d[i] - d[j] <= 1.0
    {
      var a :| 0 <= a < |arr| && arr[a] == i;
      var b :| 0 <= b < |arr| && arr[b] == j;
    }
  }

  /** A state that the loop has left behind had a larger deviation. */
  ghost predicate Behind(visited: set<seq<nat>>, lens: seq<nat>, targets: seq<real>, n: nat)
    requires |lens| == |targets|
  {
    forall v :: v in visited ==>
      |v| == |targets| && v in Vecs(|targets|, n) && Deviation(v, targets) > Deviation(lens, targets)
  }

  lemma BehindMore(visited: set<seq<nat>>, lens: seq<nat>, lens': seq<nat>, targets: seq<real>, n: nat)
    requires |lens| == |lens'| == |targets| && Behind(visited, lens, targets, n) && lens in Vecs(|targets|, n)
    requires Deviation(lens', targets) < Deviation(lens, targets)
    ensures Behind(visited + {lens}, lens', targets, n)
    ensures |Vecs(|targets|, n) - (visited + {lens})| < |Vecs(|targets|, n) - visited|
  {
    hide Deviation, Vecs;
    assert lens !in visited;
    OneLess(Vecs(|targets|, n), visited, lens);
  }

  lemma OneLess(all: set<seq<nat>>, visited: set<seq<nat>>, v: seq<nat>)
    requires v in all && v !in visited
    ensures |all - (visited + {v})| < |all - visited|
  {
    assert all - visited == (all - (visited + {v})) + {v};
  }

  lemma LensIn(lists: Lists, targets: seq<real>, arr: seq<nat>, n: nat)
    requires Placed(lists, targets, arr, n)
    ensures Lens(lists) in Vecs(|targets|, n)
  {
    SumLens(lists, targets);
    VecIn(Lens(lists), n);
  }

  /** The second loop: exchanges until it does not help any more. */
  method Balance(lists: Lists, targets: seq<real>, arr: seq<nat>, ghost n: nat, ghost lists0: Lists)
      returns (lists': Lists)
    requires Placed(lists, targets, arr, n) && InOrder(lists, targets, arr)
    requires forall i :: 0 <= i < |targets| ==> targets[i] >= 0.0
    requires forall i :: 0 <= i < |targets| && !(targets[i] > 0.0) ==> lists[i] == []
    requires Sum(Diffs(Lens(lists), targets)) == 0.0 && AllStay(lists0, lists, targets)
    ensures AllStay(lists0, lists', targets)
    ensures |lists'| == |targets| && Partition(lists', n) && Even(Lens(lists'), targets)
    ensures forall i :: 0 <= i < |targets| && !(targets[i] > 0.0) ==> lists'[i] == []
    ensures Even(Lens(lists), targets) ==> lists' == lists
  {
    lists' := lists;
    var a := arr;
    ghost var visited: set<seq<nat>> := {};
    hide Deviation, Sum, Vecs, AllStay;
    while |a| > 1
      invariant AllStay(lists0, lists', targets)
      invariant Placed(lists', targets, a, n) && Usable(lists', targets, a) && Behind(visited, Lens(lists'), targets, n)
      invariant Sum(Diffs(Lens(lists'), targets)) == 0.0
      invariant forall i :: 0 <= i < |targets| && !(targets[i] > 0.0) ==> lists'[i] == []
      invariant Even(Lens(lists), targets) ==> lists' == lists
      decreases |Vecs(|targets|, n) - visited|
    {
      hide Usable, Placed, Behind, Indexes, Even;
      PlacedFacts(lists', targets, a, n);
      var d := Diffs(Lens(lists'), targets);
      var first, last := d[a[0]], d[a[|a| - 1]];
      HelpsIff(first, last);
      if !(Abs(first + 1.0) + Abs(last - 1.0) < Abs(first) + Abs(last)) {
        StopsEven(lists', targets, a, n);
        return;
      }
      NotYetEven(lists', targets, a, n);
      LensIn(lists', targets, a, n);
      ghost var before := Lens(lists');
      lists', a := Exchange(lists', targets, a, n, lists0);
      PlacedFacts(lists', targets, a, n);
      BehindMore(visited, before, Lens(lists'), targets, n);
      visited := visited + {before};
    }
    ShortEven(lists', targets, a, n);
  }

  lemma NotYetEven(lists: Lists, targets: seq<real>, arr: seq<nat>, n: nat)
    requires Placed(lists, targets, arr, n) && |arr| > 1
    requires var d := Diffs(Lens(lists), targets); d[arr[|arr| - 1]] - d[arr[0]] > 1.0
    ensures !Even(Lens(lists), targets)
  {
    var i, j := arr[|arr| - 1], arr[0];
    assert targets[i] > 0.0 && targets[j] > 0.0;
  }

  lemma PlacedFacts(lists: Lists, targets: seq<real>, arr: seq<nat>, n: nat)
    requires Placed(lists, targets, arr, n)
    ensures |lists| == |targets| && Partition(lists, n) && forall i :: 0 <= i < |arr| ==> arr[i] < |targets|
  {
  }

  lemma StopsEven(lists: Lists, targets: seq<real>, arr: seq<nat>, n: nat)
    requires Placed(lists, targets, arr, n) && Usable(lists, targets, arr) && |arr| > 1
    requires forall i :: 0 <= i < |targets| ==> targets[i] >= 0.0
    requires forall i :: 0 <= i < |targets| && !(targets[i] > 0.0) ==> lists[i] == []
    requires Sum(Diffs(Lens(lists), targets)) == 0.0
    requires var d := Diffs(Lens(lists), targets);
             !(d[arr[0]] < 0.0 < d[arr[|arr| - 1]] && d[arr[|arr| - 1]] - d[arr[0]] > 1.0)
    ensures Even(Lens(lists), targets)
  {
    var d := Diffs(Lens(lists), targets);
    if Sorted(arr, d) { StopsTight(arr, d, targets); }
    TightIsEven(Lens(lists), targets, arr);
  }

  lemma ShortEven(lists: Lists, targets: seq<real>, arr: seq<nat>, n: nat)
    requires Placed(lists, targets, arr, n) && |arr| <= 1
    ensures Even(Lens(lists), targets)
  {
    TightIsEven(Lens(lists), targets, arr);
  }

  // ----- from the current items to the new ones

  /** The exact share of an item of weight `w`. */
  function Share(w: real, total: real, n: nat): real
    requires total > 0.0
  {
    w / total * n as real
  }

  function Targets(weights: seq<real>, n: nat): (t: seq<real>)
    requires Sum(weights) > 0.0
    ensures |t| == |weights| && forall k :: 0 <= k < |t| ==> t[k] == Share(weights[k], Sum(weights), n)
  {
    var total := Sum(weights);
    seq(|weights|, k requires 0 <= k < |weights| => Share(weights[k], total, n))
  }

  lemma ShareSum(a: real, b: real, total: real, n: real)
    requires total > 0.0
    ensures (a + b) / total * n == a / total * n + b / total * n
  {
    assert (a + b) / total == a / total + b / total;
  }

  lemma {:induction false} TargetsSum(w: seq<real>, t: seq<real>, total: real, n: real)
    requires |w| == |t| && total > 0.0 && forall k :: 0 <= k < |t| ==> t[k] == w[k] / total * n
    ensures Sum(t) == Sum(w) / total * n
  {
    if w != [] {
      var m := |w| - 1;
      TargetsSum(w[..m], t[..m], total, n);
      ShareSum(Sum(w[..m]), w[m], total, n);
    }
  }

  lemma TargetSign(w: real, total: real, n: nat)
    requires w >= 0.0 && total > 0.0
    ensures Share(w, total, n) >= 0.0 && (Share(w, total, n) > 0.0 <==> w > 0.0 && n > 0)
  {
    if w > 0.0 { assert w / total > 0.0; }
    if w == 0.0 { assert w / total == 0.0; }
  }

  /** The slots of each item before the change. */
  method Collect(cur: seq<nat>, m: nat) returns (lists: Lists)
    requires forall s :: 0 <= s < |cur| ==> cur[s] < m
    ensures |lists| == m && Partition(lists, |cur|) && Written(lists, cur, m)
  {
    lists := NoLists(m);
    NoListsEmpty(m);
    assert Written(lists, cur, m);
    hide Partition, Written;
    for s := 0 to |cur|
      invariant |lists| == m && Partition(lists, s) && Written(lists, cur, m)
    {
      CollectOne(lists, cur[s], s);
      StillWritten(lists, cur, s);
      lists := lists[cur[s] := lists[cur[s]] + [s]];
    }
  }

  lemma StillWritten(lists: Lists, cur: seq<nat>, s: nat)
    requires s < |cur| && cur[s] < |lists| && Written(lists, cur, |lists|)
    ensures Written(lists[cur[s] := lists[cur[s]] + [s]], cur, |lists|)
  {
    var lists' := lists[cur[s] := lists[cur[s]] + [s]];
    forall j | 0 <= j < |lists| ensures ListWritten(lists'[j], cur, j) { assert ListWritten(lists[j], cur, j); }
  }

  function NoLists(m: nat): (r: Lists)
    ensures |r| == m
  {
    if m == 0 then [] else NoLists(m - 1) + [[]]
  }

  lemma {:induction false} NoListsEmpty(m: nat)
    ensures Partition(NoLists(m), 0) && forall k :: 0 <= k < m ==> NoLists(m)[k] == []
  {
    if m > 0 {
      NoListsEmpty(m - 1);
      forall k | 0 <= k < m ensures NoLists(m)[k] == [] { if k < m - 1 { assert NoLists(m - 1)[k] == []; } }
    }
    hide NoLists;
    forall x: nat ensures Holds(NoLists(m), x) == 0 { HoldsNothing(NoLists(m), x); }
    HoldsNothing(NoLists(m), 0);
  }

  lemma {:induction false} HoldsNothing(lists: Lists, x: nat)
    requires forall k :: 0 <= k < |lists| ==> lists[k] == []
    ensures Holds(lists, x) == 0 && Size(lists) == 0
  {
    if lists != [] { HoldsNothing(lists[..|lists| - 1], x); }
  }

  lemma CollectOne(lists: Lists, k: nat, s: nat)
    requires k < |lists| && Partition(lists, s)
    ensures Partition(lists[k := lists[k] + [s]], s + 1)
  {
    var lists' := lists[k := lists[k] + [s]];
    forall x: nat ensures Holds(lists', x) == if x < s + 1 then 1 else 0 {
      ListSet(lists, k, lists[k] + [s], x);
      assert Holds(lists, x) == if x < s then 1 else 0;
    }
    ListSet(lists, k, lists[k] + [s], 0);
  }

  /** `arr` lists each of the first `k` items that has a positive target once. */
  ghost predicate IndexesUpto(arr: seq<nat>, targets: seq<real>, k: nat) {
    && k <= |targets|
    && (forall i :: 0 <= i < |arr| ==> arr[i] < k && targets[arr[i]] > 0.0)
    && (forall i, j :: 0 <= i < j < |arr| ==> arr[i] != arr[j])
    && forall x :: 0 <= x < k && targets[x] > 0.0 ==> x in arr
  }

  function Inserted(arr: seq<nat>, pos: nat, k: nat): (r: seq<nat>)
    requires pos <= |arr|
    ensures |r| == |arr| + 1
    ensures forall i :: 0 <= i < |r| ==> r[i] == if i < pos then arr[i] else if i == pos then k else arr[i - 1]
  {
    seq(|arr| + 1, i requires 0 <= i < |arr| + 1 => if i < pos then arr[i] else if i == pos then k else arr[i - 1])
  }

  lemma InsertedDistinct(arr: seq<nat>, pos: nat, k: nat)
    requires pos <= |arr| && (forall i :: 0 <= i < |arr| ==> arr[i] < k)
    requires forall i, j :: 0 <= i < j < |arr| ==> arr[i] != arr[j]
    ensures forall i, j :: 0 <= i < j < |Inserted(arr, pos, k)| ==> Inserted(arr, pos, k)[i] != Inserted(arr, pos, k)[j]
  {
  }

  lemma InsertedIndexes(arr: seq<nat>, pos: nat, targets: seq<real>, k: nat)
    requires pos <= |arr| && k < |targets| && targets[k] > 0.0 && IndexesUpto(arr, targets, k)
    ensures IndexesUpto(Inserted(arr, pos, k), targets, k + 1)
  {
    var r := Inserted(arr, pos, k);
    InsertedDistinct(arr, pos, k);
    forall x | 0 <= x < k + 1 && targets[x] > 0.0 ensures x in r {
      if x < k {
        var i :| 0 <= i < |arr| && arr[i] == x;
        assert r[if i < pos then i else i + 1] == x;
      } else {
        assert r[pos] == k;
      }
    }
  }

  lemma InsertedSorted(arr: seq<nat>, pos: nat, d: seq<real>, k: nat)
    requires pos <= |arr| && k < |d| && Sorted(arr, d)
    requires (forall i :: pos <= i < |arr| ==> d[arr[i]] > d[k]) && (pos > 0 ==> d[arr[pos - 1]] <= d[k])
    ensures Sorted(Inserted(arr, pos, k), d)
  {
    var r := Inserted(arr, pos, k);
    forall i, j | 0 <= i < j < |r| ensures d[r[i]] <= d[r[j]] {
      if j == pos && i < pos - 1 { assert d[arr[i]] <= d[arr[pos - 1]]; }
    }
  }

  /** Sorting the items with a positive target by what they lack. */
  method SortItems(targets: seq<real>, d: seq<real>) returns (arr: seq<nat>)
    requires |d| == |targets|
    ensures Indexes(arr, targets) && Sorted(arr, d)
  {
    arr := [];
    for k := 0 to |targets|
      invariant Sorted(arr, d) && IndexesUpto(arr, targets, k)
    {
      if targets[k] > 0.0 {
        var pos: nat := |arr|;
        while pos > 0 && d[arr[pos - 1]] > d[k]
          invariant pos <= |arr| && forall i :: pos <= i < |arr| ==> d[arr[i]] > d[k]
        {
          pos := pos - 1;
        }
        InsertedIndexes(arr, pos, targets, k);
        InsertedSorted(arr, pos, d, k);
        hide Sorted, IndexesUpto;
        arr := Inserted(arr, pos, k);
      }
    }
  }

  // ----- the result

  lemma {:induction false} HeldBySome(lists: Lists, x: nat)
    requires Holds(lists, x) > 0
    ensures exists k :: 0 <= k < |lists| && x in lists[k]
  {
    var n := |lists| - 1;
    if x !in multiset(lists[n]) {
      HeldBySome(lists[..n], x);
      var k :| 0 <= k < n && x in lists[..n][k];
      assert x in lists[k];
    } else {
      assert x in lists[n];
    }
  }

  lemma {:induction false} HeldOnce(lists: Lists, x: nat, k: nat)
    requires k < |lists| && x in lists[k]
    ensures multiset(lists[k])[x] <= Holds(lists, x)
    ensures forall j :: 0 <= j < |lists| && j != k && x in lists[j] ==> Holds(lists, x) >= 2
  {
    var n := |lists| - 1;
    assert x in multiset(lists[k]);
    if k < n {
      HeldOnce(lists[..n], x, k);
      forall j | 0 <= j < |lists| && j != k && x in lists[j] ensures Holds(lists, x) >= 2 {
        if j < n { assert x in lists[..n][j]; } else { assert x in multiset(lists[n]); }
      }
    } else {
      forall j | 0 <= j < n && x in lists[j] ensures Holds(lists[..n], x) >= 1 {
        assert x in lists[..n][j];
        HeldOnce(lists[..n], x, j);
        assert x in multiset(lists[..n][j]);
      }
    }
  }

  function Count(r: seq<nat>, k: nat): nat {
    if r == [] then 0 else Count(r[..|r| - 1], k) + if r[|r| - 1] == k then 1 else 0
  }

  function Indices(r: seq<nat>, k: nat): set<nat> { set s: nat | s < |r| && r[s] == k }

  lemma {:induction false} CountIsSize(r: seq<nat>, k: nat)
    ensures Count(r, k) == |Indices(r, k)|
  {
    if r != [] {
      var n := |r| - 1;
      CountIsSize(r[..n], k);
      assert Indices(r, k) == Indices(r[..n], k) + if r[n] == k then {n} else {};
    }
  }

  function Elems(l: seq<nat>): set<nat> { set x | x in l }

  lemma {:induction false} DistinctSize(l: seq<nat>)
    requires forall x :: x in multiset(l) ==> multiset(l)[x] == 1
    ensures |Elems(l)| == |l|
  {
    if l != [] {
      var n := |l| - 1;
      var f, y := l[..n], l[n];
      assert l == f + [y];
      assert multiset(l) == multiset(f) + multiset{y};
      assert forall x :: x in multiset(f) ==> multiset(f)[x] <= multiset(l)[x];
      DistinctSize(f);
      assert y in f ==> y in multiset(f);
      assert Elems(l) == Elems(f) + {y};
    }
  }

  /** The slots of list `l` are given to item `k`. */
  ghost predicate ListWritten(l: seq<nat>, r: seq<nat>, k: nat) {
    forall i :: 0 <= i < |l| ==> l[i] < |r| && r[l[i]] == k
  }

  ghost predicate Written(lists: Lists, r: seq<nat>, k: nat) {
    k <= |lists| && forall j :: 0 <= j < k ==> ListWritten(lists[j], r, j)
  }

  lemma NotElsewhere(lists: Lists, n: nat, k: nat, i: nat)
    requires Partition(lists, n) && k < |lists| && i < |lists[k]|
    ensures lists[k][i] < n && forall j :: 0 <= j < |lists| && j != k ==> lists[k][i] !in lists[j]
  {
    var x := lists[k][i];
    HeldOnce(lists, x, k);
    assert x in multiset(lists[k]) && Holds(lists, x) == if x < n then 1 else 0;
  }

  /** Writing the lists back as one item per slot. */
  method Assign(lists: Lists, n: nat) returns (r: seq<nat>)
    requires Partition(lists, n)
    ensures |r| == n && Written(lists, r, |lists|)
  {
    r := Zeros(n);
    hide Partition;
    for k := 0 to |lists|
      invariant |r| == n && Written(lists, r, k)
    {
      for i := 0 to |lists[k]|
        invariant |r| == n && Written(lists, r, k) && forall h :: 0 <= h < i ==> lists[k][h] < n && r[lists[k][h]] == k
      {
        NotElsewhere(lists, n, k, i);
        ghost var r0 := r;
        r := r[lists[k][i] := k];
        forall j | 0 <= j < k ensures ListWritten(lists[j], r, j) {
          assert ListWritten(lists[j], r0, j);
          forall h | 0 <= h < |lists[j]| ensures r[lists[j][h]] == j { assert lists[j][h] in lists[j]; }
        }
      }
    }
  }

  function Zeros(n: nat): (r: seq<nat>)
    ensures |r| == n
  {
    if n == 0 then [] else Zeros(n - 1) + [0]
  }

  lemma HolderOf(lists: Lists, n: nat, r: seq<nat>, s: nat)
    requires Partition(lists, n) && |r| == n && s < n && Written(lists, r, |lists|)
    ensures r[s] < |lists| && s in lists[r[s]]
  {
    assert Holds(lists, s) == 1;
    HeldBySome(lists, s);
    var k :| 0 <= k < |lists| && s in lists[k];
    assert ListWritten(lists[k], r, k);
  }

  lemma ListIsIndices(lists: Lists, n: nat, r: seq<nat>, k: nat)
    requires Partition(lists, n) && |r| == n && k < |lists| && Written(lists, r, |lists|)
    ensures Count(r, k) == |lists[k]|
  {
    CountIsSize(r, k);
    forall x | x in multiset(lists[k]) ensures multiset(lists[k])[x] == 1 {
      assert x in lists[k];
      HeldOnce(lists, x, k);
      assert Holds(lists, x) == if x < n then 1 else 0;
    }
    DistinctSize(lists[k]);
    assert ListWritten(lists[k], r, k);
    forall s: nat | s in Indices(r, k) ensures s in lists[k] { HolderOf(lists, n, r, s); }
    assert Indices(r, k) == Elems(lists[k]);
  }

  // ----- the whole of adjust_distribution

  /** What exact targets are: not negative, and together as many as there are slots. */
  ghost predicate TargetsOk(t: seq<real>, n: nat) {
    (forall k :: 0 <= k < |t| ==> t[k] >= 0.0) && Sum(t) == n as real
  }

  lemma TargetsAreOk(weights: seq<real>, n: nat)
    requires Sum(weights) > 0.0 && forall k :: 0 <= k < |weights| ==> weights[k] >= 0.0
    ensures TargetsOk(Targets(weights, n), n)
    ensures forall k :: 0 <= k < |weights| ==> (Targets(weights, n)[k] > 0.0 <==> weights[k] > 0.0 && n > 0)
  {
    hide Sum;
    var t, w := Targets(weights, n), Sum(weights);
    forall k | 0 <= k < |t| ensures t[k] >= 0.0 && (t[k] > 0.0 <==> weights[k] > 0.0 && n > 0) {
      TargetSign(weights[k], w, n);
    }
    TargetsSum(weights, t, w, n as real);
    assert w / w == 1.0;
  }

  lemma SomeTarget(t: seq<real>, arr: seq<nat>, n: nat)
    requires TargetsOk(t, n) && n > 0 && Indexes(arr, t)
    ensures arr != []
  {
    if forall k :: 0 <= k < |t| ==> t[k] == 0.0 { SumZero(t); }
  }

  /** Every slot has an item with a positive target, and no two such items differ by more than one in
      what they have beyond it. */
  ghost predicate Settled(t: seq<real>, cur: seq<nat>) {
    && (forall s :: 0 <= s < |cur| ==> cur[s] < |t| && t[cur[s]] > 0.0)
    && forall i, j :: 0 <= i < |t| && 0 <= j < |t| && t[i] > 0.0 && t[j] > 0.0 ==>
         (Count(cur, i) as real - t[i]) - (Count(cur, j) as real - t[j]) <= 1.0
  }

  /** The lists of a settled distribution need no move of either kind. */
  lemma SettledLists(t: seq<real>, cur: seq<nat>, lists: Lists)
    requires |lists| == |t| && Partition(lists, |cur|) && Written(lists, cur, |t|)
    ensures Settled(t, cur) <==>
            (forall k :: 0 <= k < |t| && !(t[k] > 0.0) ==> lists[k] == []) && Even(Lens(lists), t)
  {
    forall k | 0 <= k < |t| ensures Count(cur, k) == Lens(lists)[k] { ListIsIndices(lists, |cur|, cur, k); }
    forall s | 0 <= s < |cur| ensures cur[s] < |t| && s in lists[cur[s]] { HolderOf(lists, |cur|, cur, s); }
    forall k | 0 <= k < |t| && lists[k] != [] ensures exists s :: 0 <= s < |cur| && cur[s] == k {
      assert ListWritten(lists[k], cur, k);
      assert cur[lists[k][0]] == k;
    }
  }

  /** The redistribution for given targets. */
  method Redistribute(t: seq<real>, cur: seq<nat>) returns (lists: Lists, ghost lists0: Lists)
    requires TargetsOk(t, |cur|) && |cur| > 0 && forall s :: 0 <= s < |cur| ==> cur[s] < |t|
    ensures |lists| == |t| && Partition(lists, |cur|) && Even(Lens(lists), t)
    ensures forall k :: 0 <= k < |t| && !(t[k] > 0.0) ==> lists[k] == []
    ensures Settled(t, cur) ==> Written(lists, cur, |t|)
    ensures |lists0| == |t| && Partition(lists0, |cur|) && Written(lists0, cur, |t|) && AllStay(lists0, lists, t)
  {
    lists := Collect(cur, |t|);
    lists0 := lists;
    var arr := SortItems(t, Diffs(Lens(lists), t));
    SomeTarget(t, arr, |cur|);
    assert Placed(lists, t, arr, |cur|) && InOrder(lists, t, arr);
    hide InOrder, Even, Indexes, Sum, Partition, Settled, Written, AllStay;
    SettledLists(t, cur, lists);
    lists, arr := MoveAway(lists, t, arr, |cur|);
    SumLens(lists, t);
    ZeroSum(lists, t, |cur|);
    lists := Balance(lists, t, arr, |cur|, lists0);
  }

  lemma ZeroSum(lists: Lists, t: seq<real>, n: nat)
    requires |lists| == |t| && Partition(lists, n) && TargetsOk(t, n)
    ensures Sum(Diffs(Lens(lists), t)) == 0.0
  {
    hide Sum;
    SumLens(lists, t);
  }

  lemma SameSlots(lists: Lists, n: nat, r: seq<nat>, cur: seq<nat>)
    requires Partition(lists, n) && |r| == |cur| == n && Written(lists, r, |lists|) && Written(lists, cur, |lists|)
    ensures r == cur
  {
    forall s | 0 <= s < n ensures r[s] == cur[s] {
      HolderOf(lists, n, r, s);
      assert ListWritten(lists[r[s]], cur, r[s]);
    }
  }

  /** `adjust_distribution`: every slot gets an item of positive weight, and what two such items have
      beyond their exact share differs by at most one. A distribution that is like this already, such
      as its own result, stays as it is. In any case every item of positive weight keeps all its slots, or at
      least as many as its share rounded down. */
  method AdjustDistribution(weights: seq<real>, cur: seq<nat>) returns (r: seq<nat>)
    requires Sum(weights) > 0.0 && forall k :: 0 <= k < |weights| ==> weights[k] >= 0.0
    requires forall s :: 0 <= s < |cur| ==> cur[s] < |weights|
    ensures |r| == |cur| && Settled(Targets(weights, |cur|), r)
    ensures forall s :: 0 <= s < |r| ==> r[s] < |weights| && weights[r[s]] > 0.0
    ensures Settled(Targets(weights, |cur|), cur) ==> r == cur
    ensures forall i, j :: 0 <= i < |weights| && 0 <= j < |weights| && weights[i] > 0.0 && weights[j] > 0.0 ==>
              Fair(weights, r, i, j)
    ensures forall k :: 0 <= k < |weights| && weights[k] > 0.0 ==>
              || |Unmoved(cur, r, k)| == Count(cur, k)
              || |Unmoved(cur, r, k)| >= Targets(weights, |cur|)[k].Floor
  {
    hide Sum, Partition, Written, TargetsOk, Settled, Even, Lens, AllStay, Fair;
    var t := Targets(weights, |cur|);
    TargetsAreOk(weights, |cur|);
    if |cur| == 0 {
      r := [];
      NothingSettled(t);
      AllFair(weights, r);
      return;
    }
    var lists;
    ghost var lists0;
    lists, lists0 := Redistribute(t, cur);
    r := Assign(lists, |cur|);
    SettledLists(t, r, lists);
    AllFair(weights, r);
    forall s | 0 <= s < |cur| ensures r[s] < |weights| && weights[r[s]] > 0.0 { HolderOf(lists, |cur|, r, s); }
    if Settled(t, cur) { SameSlots(lists, |cur|, r, cur); }
    forall k | 0 <= k < |weights| && weights[k] > 0.0
      ensures |Unmoved(cur, r, k)| == Count(cur, k) || |Unmoved(cur, r, k)| >= t[k].Floor
    {
      var m: nat := if Count(cur, k) <= t[k].Floor then Count(cur, k) else t[k].Floor;
      KeepsShare(lists0, lists, t, cur, r, k, m);
      UnmovedFew(cur, r, k);
    }
  }

  /** The difference between the slots of two items follows that between their weights, up to one slot. */
  predicate Fair(weights: seq<real>, r: seq<nat>, i: nat, j: nat)
    requires i < |weights| && j < |weights|
  {
    (|Indices(r, i)| - |Indices(r, j)|) as real * Sum(weights)
      <= (weights[i] - weights[j]) * |r| as real + Sum(weights)
  }

  lemma FairByShares(weights: seq<real>, r: seq<nat>, i: nat, j: nat)
    requires Sum(weights) > 0.0 && Settled(Targets(weights, |r|), r)
    requires i < |weights| && j < |weights| && weights[i] > 0.0 && weights[j] > 0.0
    ensures Fair(weights, r, i, j)
  {
    hide Sum, Count, Indices;
    CountIsSize(r, i);
    CountIsSize(r, j);
    var total, n, t := Sum(weights), |r| as real, Targets(weights, |r|);
    TargetSign(weights[i], total, |r|);
    TargetSign(weights[j], total, |r|);
    FairShare(weights[i], total, |r|);
    FairShare(weights[j], total, |r|);
    var a, b := Count(r, i) as real, Count(r, j) as real;
    if |r| == 0 {
      assert Count(r, i) == 0 && Count(r, j) == 0 by { NoneCounted(i); NoneCounted(j); assert r == []; }
    } else {
      assert (a - t[i]) - (b - t[j]) <= 1.0;
      Scale(a - b, t[i], t[j], total);
    }
  }

  lemma FairShare(w: real, total: real, n: nat)
    requires total > 0.0
    ensures Share(w, total, n) * total == w * n as real
  {
    var q := w / total;
    assert q * total == w;
    assert q * n as real * total == q * total * n as real;
  }

  lemma NoneCounted(k: nat)
    ensures Count([], k) == 0
  {
  }

  lemma Scale(d: real, a: real, b: real, total: real)
    requires total > 0.0 && d - a + b <= 1.0
    ensures d * total <= a * total - b * total + total
  {
    assert (d - a + b) * total <= 1.0 * total;
  }

  lemma AllFair(weights: seq<real>, r: seq<nat>)
    requires Sum(weights) > 0.0 && Settled(Targets(weights, |r|), r)
    ensures forall i, j :: 0 <= i < |weights| && 0 <= j < |weights| && weights[i] > 0.0 && weights[j] > 0.0 ==>
              Fair(weights, r, i, j)
  {
    hide Fair, Settled, Sum;
    forall i, j | 0 <= i < |weights| && 0 <= j < |weights| && weights[i] > 0.0 && weights[j] > 0.0
      ensures Fair(weights, r, i, j)
    {
      FairByShares(weights, r, i, j);
    }
  }

  /** The slots that item `k` has before and after. */
  function Unmoved(cur: seq<nat>, r: seq<nat>, k: nat): set<nat> {
    set s: nat | s < |cur| && s < |r| && cur[s] == k && r[s] == k
  }

  lemma UnmovedFew(cur: seq<nat>, r: seq<nat>, k: nat)
    ensures |Unmoved(cur, r, k)| <= Count(cur, k)
  {
    CountIsSize(cur, k);
    SubsetSize(Unmoved(cur, r, k), Indices(cur, k));
  }

  lemma {:induction false} PartUnmoved(l: seq<nat>, cur: seq<nat>, r: seq<nat>, k: nat)
    requires ListWritten(l, cur, k) && ListWritten(l, r, k)
    requires forall x :: x in multiset(l) ==> multiset(l)[x] == 1
    ensures |Unmoved(cur, r, k)| >= |l|
  {
    DistinctSize(l);
    var a, b := Elems(l), Unmoved(cur, r, k);
    forall x | x in a ensures x in b {
      var i :| 0 <= i < |l| && l[i] == x;
    }
    assert a <= b;
    SubsetSize(a, b);
  }

  lemma {:induction false} SubsetSize(a: set<nat>, b: set<nat>)
    requires a <= b
    ensures |a| <= |b|
  {
    assert b == a + (b - a);
  }

  /** An item keeps as many of its slots as its share allows. */
  lemma KeepsShare(lists0: Lists, lists: Lists, t: seq<real>, cur: seq<nat>, r: seq<nat>, k: nat, m: nat)
    requires |lists0| == |lists| == |t| && |cur| == |r| && Partition(lists0, |cur|) && Partition(lists, |cur|)
    requires Written(lists0, cur, |t|) && Written(lists, r, |t|) && AllStay(lists0, lists, t)
    requires k < |t| && t[k] > 0.0 && m <= Count(cur, k) && m as real <= t[k]
    ensures |Unmoved(cur, r, k)| >= m
  {
    ListIsIndices(lists0, |cur|, cur, k);
    var l := lists0[k][..m];
    assert Stays(lists0[k], lists[k], t[k]);
    assert KeepsFirst(lists0[k], lists[k], m);
    assert l == lists[k][..m];
    assert ListWritten(lists0[k], cur, k) && ListWritten(lists[k], r, k);
    forall x | x in multiset(l) ensures multiset(l)[x] == 1 { OnceInPart(lists0, |cur|, k, m, x); }
    PartUnmoved(l, cur, r, k);
  }

  lemma OnceInPart(lists: Lists, n: nat, k: nat, m: nat, x: nat)
    requires Partition(lists, n) && k < |lists| && m <= |lists[k]| && x in multiset(lists[k][..m])
    ensures multiset(lists[k][..m])[x] == 1
  {
    var l := lists[k];
    assert l == l[..m] + l[m..];
    assert multiset(l) == multiset(l[..m]) + multiset(l[m..]);
    assert x in l[..m] && x in l;
    HeldOnce(lists, x, k);
    assert Holds(lists, x) == if x < n then 1 else 0;
  }

  lemma NothingSettled(t: seq<real>)
    requires forall k :: 0 <= k < |t| ==> !(t[k] > 0.0)
    ensures Settled(t, [])
  {
  }
}
