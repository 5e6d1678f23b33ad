/** Folding of failure domains: whole subtrees below the levels that placement rules mention are
    replaced by single nodes, which stand for the leaves that were in them. */
module Folding {
  import opened Basics

  /** A node of the failure domain tree; the root's children have no parent. */
  datatype Node = Node(parent: Option<nat>, level: nat, size: real)

  type Tree = map<nat, Node>

  function Children(t: Tree, p: nat): set<nat> { set c | c in t && t[c].parent == Some(p) }

  predicate IsLeaf(t: Tree, id: nat) { id in t && Children(t, id) == {} }

  /** A node whose children are all leaves on levels that no rule mentions. */
  predicate Foldable(t: Tree, interest: set<nat>, p: nat) {
    p in t && Children(t, p) != {} && forall c :: c in Children(t, p) ==>
      Children(t, c) == {} && t[c].level !in interest
  }

  function SizeOf(t: Tree, s: set<nat>): real
    requires s <= t.Keys
    decreases |s|
  {
    if s == {} then 0.0 else var c := Least(s); t[c].size + SizeOf(t, s - {c})
  }

  lemma {:induction false} SizePick(t: Tree, s: set<nat>, c: nat)
    requires s <= t.Keys && c in s
    ensures SizeOf(t, s) == t[c].size + SizeOf(t, s - {c})
    decreases |s|
  {
    var m := Least(s);
    if m != c {
      SizePick(t, s - {m}, c);
      SizePick(t, s - {c}, m);
      assert s - {m} - {c} == s - {c} - {m};
    }
  }

  // ----- one fold

  /** The tree so far, and for each folded node the original leaves that it stands for. */
  datatype Folded = Folded(tree: Tree, extracted: map<nat, seq<nat>>)

  function Expand(f: Folded, id: nat): seq<nat> { if id in f.extracted then f.extracted[id] else [id] }

  function ExpandAll(f: Folded, s: set<nat>): seq<nat>
    decreases |s|
  {
    if s == {} then [] else var c := Least(s); Expand(f, c) + ExpandAll(f, s - {c})
  }

  lemma {:induction false} InExpandAll(f: Folded, s: set<nat>, x: nat)
    ensures x in ExpandAll(f, s) <==> exists c :: c in s && x in Expand(f, c)
    decreases |s|
  {
    if s != {} {
      var m := Least(s);
      InExpandAll(f, s - {m}, x);
      if x in ExpandAll(f, s) && x !in Expand(f, m) {
        var c :| c in s - {m} && x in Expand(f, c);
        assert c in s;
      }
      if x !in ExpandAll(f, s) {
        forall c | c in s ensures x !in Expand(f, c) {
          if c != m { assert c in s - {m}; }
        }
      }
    }
  }

  /** The node takes the place of `p`; the children of `p` leave the tree. */
  function FoldTree(t: Tree, p: nat, id: nat): Tree
    requires p in t && Children(t, p) <= t.Keys
  {
    (t - Children(t, p) - {p})[id := t[p].(size := SizeOf(t, Children(t, p)))]
  }

  function FoldOne(f: Folded, p: nat, id: nat): Folded
    requires p in f.tree && Children(f.tree, p) <= f.tree.Keys
  {
    var kids := Children(f.tree, p);
    Folded(FoldTree(f.tree, p, id), (f.extracted - kids)[id := ExpandAll(f, kids)])
  }

  /** `id` is not used in the tree, not even as a parent. */
  predicate Fresh(t: Tree, id: nat) { id !in t && forall c :: c in t ==> t[c].parent != Some(id) }

  ghost function Leaves(t: Tree): (r: set<nat>)
    ensures r <= t.Keys
  {
    set id | id in t && IsLeaf(t, id)
  }

  lemma ChildrenAfter(t: Tree, interest: set<nat>, p: nat, id: nat, q: nat)
    requires Foldable(t, interest, p) && Fresh(t, id)
    ensures var t' := FoldTree(t, p, id);
            && (q in t' && q != id ==> q in t && q != p && q !in Children(t, p) && t'[q] == t[q])
            && Children(t', id) == {} && id in t'
            && (q in t' && q != id ==> Children(t', q) == if p in Children(t, q) then Children(t, q) - {p} + {id}
                else Children(t, q))
  {
    var t' := FoldTree(t, p, id);
    if q in t' && q != id {
      forall c ensures c in Children(t', q) <==> c in (if p in Children(t, q) then Children(t, q) - {p} + {id}
          else Children(t, q)) {
        assert c in Children(t, p) ==> t[c].parent == Some(p);
      }
    }
  }

  lemma LeavesAfter(t: Tree, interest: set<nat>, p: nat, id: nat)
    requires Foldable(t, interest, p) && Fresh(t, id)
    ensures Children(t, p) <= Leaves(t) && Leaves(FoldTree(t, p, id)) == Leaves(t) - Children(t, p) + {id}
  {
    var t' := FoldTree(t, p, id);
    forall q ensures q in Leaves(t') <==> q in Leaves(t) - Children(t, p) + {id} {
      ChildrenAfter(t, interest, p, id, q);
    }
  }

  // ----- what every fold keeps

  ghost predicate NoDup(l: seq<nat>) { forall i, j :: 0 <= i < j < |l| ==> l[i] != l[j] }

  /** Every original leaf is in exactly one leaf of the folded tree, once: `home` tells in which. */
  ghost predicate Sound(f: Folded, home: map<nat, nat>) {
    f.extracted.Keys <= Leaves(f.tree) && Covered(f, home) && Separate(f, home) && Once(f) && Apart(f)
  }

  ghost predicate Covered(f: Folded, home: map<nat, nat>) {
    forall x :: x in home ==> home[x] in Leaves(f.tree) && x in Expand(f, home[x])
  }

  ghost predicate Separate(f: Folded, home: map<nat, nat>) {
    forall id, x :: id in Leaves(f.tree) && x in Expand(f, id) ==> x in home && home[x] == id
  }

  ghost predicate Once(f: Folded) {
    forall id :: id in Leaves(f.tree) ==> NoDup(Expand(f, id))
  }

  ghost predicate Apart(f: Folded) {
    forall id, x :: id in f.extracted && x in f.extracted[id] ==> x !in f.tree
  }

  /** All ids in use are up to `next`. */
  ghost predicate Below(f: Folded, home: map<nat, nat>, next: nat) {
    && (forall id :: id in f.tree ==> id <= next && (f.tree[id].parent.Some? ==> f.tree[id].parent.value <= next))
    && forall x :: x in home ==> x <= next
  }

  ghost function Rehomed(home: map<nat, nat>, kids: set<nat>, id: nat): map<nat, nat> {
    map x | x in home :: if home[x] in kids then id else home[x]
  }

  lemma {:induction false} NoDupAll(f: Folded, s: set<nat>, home: map<nat, nat>)
    requires forall c :: c in s ==> NoDup(Expand(f, c)) && forall x :: x in Expand(f, c) ==> x in home && home[x] == c
    ensures NoDup(ExpandAll(f, s))
    decreases |s|
  {
    if s != {} {
      var m := Least(s);
      NoDupAll(f, s - {m}, home);
      var a, b := Expand(f, m), ExpandAll(f, s - {m});
      forall i, j | 0 <= i < |a| && 0 <= j < |b| ensures a[i] != b[j] {
        InExpandAll(f, s - {m}, b[j]);
        var c :| c in s - {m} && b[j] in Expand(f, c);
        assert a[i] in Expand(f, m);
      }
    }
  }

  lemma ExpandSame(f: Folded, interest: set<nat>, p: nat, id: nat, q: nat)
    requires Foldable(f.tree, interest, p) && Fresh(f.tree, id) && q in Leaves(f.tree) && q !in Children(f.tree, p)
    ensures Expand(FoldOne(f, p, id), q) == Expand(f, q) && q != id
  {
  }

  lemma FoldForth(f: Folded, interest: set<nat>, p: nat, id: nat, home: map<nat, nat>, x: nat)
    requires Foldable(f.tree, interest, p) && Fresh(f.tree, id) && Sound(f, home) && x in home
    ensures var home' := Rehomed(home, Children(f.tree, p), id);
            home'[x] in Leaves(FoldOne(f, p, id).tree) && x in Expand(FoldOne(f, p, id), home'[x])
  {
    hide Leaves;
    LeavesAfter(f.tree, interest, p, id);
    if home[x] in Children(f.tree, p) {
      InExpandAll(f, Children(f.tree, p), x);
    } else {
      ExpandSame(f, interest, p, id, home[x]);
    }
  }

  lemma FoldBack(f: Folded, interest: set<nat>, p: nat, id: nat, home: map<nat, nat>, q: nat, x: nat)
    requires Foldable(f.tree, interest, p) && Fresh(f.tree, id) && Sound(f, home)
    requires q in Leaves(FoldOne(f, p, id).tree) && x in Expand(FoldOne(f, p, id), q)
    ensures x in home && Rehomed(home, Children(f.tree, p), id)[x] == q
  {
    hide Leaves, NoDup, SizeOf, Fresh, ExpandAll, Covered, Once, Apart;
    LeavesAfter(f.tree, interest, p, id);
    if q == id {
      InExpandAll(f, Children(f.tree, p), x);
      var c :| c in Children(f.tree, p) && x in Expand(f, c);
    } else {
      ExpandSame(f, interest, p, id, q);
    }
  }

  lemma FoldNoDup(f: Folded, interest: set<nat>, p: nat, id: nat, home: map<nat, nat>, q: nat)
    requires Foldable(f.tree, interest, p) && Fresh(f.tree, id) && Sound(f, home) && q in Leaves(FoldOne(f, p, id).tree)
    ensures NoDup(Expand(FoldOne(f, p, id), q))
  {
    hide Leaves, NoDup;
    LeavesAfter(f.tree, interest, p, id);
    if q == id {
      NoDupAll(f, Children(f.tree, p), home);
    } else {
      ExpandSame(f, interest, p, id, q);
    }
  }

  lemma StandsFor(f: Folded, home: map<nat, nat>, q: nat, x: nat)
    requires Sound(f, home) && q in Leaves(f.tree) && x in Expand(f, q)
    ensures x in home && (x == q || x !in f.tree) && (q in f.extracted ==> x !in f.tree)
  {
    hide Leaves, NoDup;
  }

  lemma FoldApart(f: Folded, interest: set<nat>, p: nat, id: nat, home: map<nat, nat>, q: nat, x: nat)
    requires Foldable(f.tree, interest, p) && Fresh(f.tree, id) && id !in home && Sound(f, home)
    requires q in FoldOne(f, p, id).extracted && x in FoldOne(f, p, id).extracted[q]
    ensures x !in FoldOne(f, p, id).tree
  {
    LeavesAfter(f.tree, interest, p, id);
    assert q != id ==> q in Leaves(f.tree) && q in f.extracted && x in Expand(f, q);
    hide Leaves, SizeOf, Sound, Fresh, Foldable, Children;
    if q == id {
      InExpandAll(f, Children(f.tree, p), x);
      var c :| c in Children(f.tree, p) && x in Expand(f, c);
      StandsFor(f, home, c, x);
    } else {
      StandsFor(f, home, q, x);
    }
  }

  lemma FoldCovered(f: Folded, interest: set<nat>, p: nat, id: nat, home: map<nat, nat>)
    requires Foldable(f.tree, interest, p) && Fresh(f.tree, id) && id !in home && Sound(f, home)
    ensures Covered(FoldOne(f, p, id), Rehomed(home, Children(f.tree, p), id))
  {
    var f', home' := FoldOne(f, p, id), Rehomed(home, Children(f.tree, p), id);
    hide Leaves, Expand, NoDup, FoldOne, Children, Foldable, Fresh, Sound;
    forall x | x in home' ensures home'[x] in Leaves(f'.tree) && x in Expand(f', home'[x]) {
      FoldForth(f, interest, p, id, home, x);
    }
  }

  lemma FoldSeparate(f: Folded, interest: set<nat>, p: nat, id: nat, home: map<nat, nat>)
    requires Foldable(f.tree, interest, p) && Fresh(f.tree, id) && id !in home && Sound(f, home)
    ensures Separate(FoldOne(f, p, id), Rehomed(home, Children(f.tree, p), id))
  {
    var f', home' := FoldOne(f, p, id), Rehomed(home, Children(f.tree, p), id);
    hide Leaves, Expand, NoDup, FoldOne, Children, Foldable, Fresh, Sound;
    forall q, x | q in Leaves(f'.tree) && x in Expand(f', q) ensures x in home' && home'[x] == q {
      FoldBack(f, interest, p, id, home, q, x);
    }
  }

  lemma FoldOnce(f: Folded, interest: set<nat>, p: nat, id: nat, home: map<nat, nat>)
    requires Foldable(f.tree, interest, p) && Fresh(f.tree, id) && id !in home && Sound(f, home)
    ensures Once(FoldOne(f, p, id))
  {
    var f', home' := FoldOne(f, p, id), Rehomed(home, Children(f.tree, p), id);
    hide Leaves, Expand, NoDup, FoldOne, Children, Foldable, Fresh, Sound;
    forall q | q in Leaves(f'.tree) ensures NoDup(Expand(f', q)) { FoldNoDup(f, interest, p, id, home, q); }
  }

  lemma FoldAllApart(f: Folded, interest: set<nat>, p: nat, id: nat, home: map<nat, nat>)
    requires Foldable(f.tree, interest, p) && Fresh(f.tree, id) && id !in home && Sound(f, home)
    ensures Apart(FoldOne(f, p, id))
  {
    var f', home' := FoldOne(f, p, id), Rehomed(home, Children(f.tree, p), id);
    hide Leaves, Expand, NoDup, FoldOne, Children, Foldable, Fresh, Sound;
    forall q, x | q in f'.extracted && x in f'.extracted[q] ensures x !in f'.tree {
      FoldApart(f, interest, p, id, home, q, x);
    }
  }

  lemma FoldSound(f: Folded, interest: set<nat>, p: nat, id: nat, home: map<nat, nat>)
    requires Foldable(f.tree, interest, p) && Fresh(f.tree, id) && id !in home && Sound(f, home)
    ensures Sound(FoldOne(f, p, id), Rehomed(home, Children(f.tree, p), id))
  {
    hide Covered, Separate, Once, Apart, Leaves, Foldable, Fresh, Children;
    LeavesAfter(f.tree, interest, p, id);
    FoldCovered(f, interest, p, id, home);
    FoldSeparate(f, interest, p, id, home);
    FoldOnce(f, interest, p, id, home);
    FoldAllApart(f, interest, p, id, home);
  }

  lemma FoldSmaller(t: Tree, interest: set<nat>, p: nat, id: nat)
    requires Foldable(t, interest, p) && Fresh(t, id)
    ensures |FoldTree(t, p, id)| < |t|
  {
    hide SizeOf;
    var kids, t' := Children(t, p), FoldTree(t, p, id);
    var c :| c in kids;
    assert c != p;
    var left := t.Keys - kids - {p};
    assert t'.Keys == left + {id};
    SetSmaller(left, t.Keys, c, p);
    assert |t'| == |t'.Keys| && |t| == |t.Keys|;
  }

  lemma FoldBelow(f: Folded, interest: set<nat>, p: nat, home: map<nat, nat>, next: nat)
    requires Foldable(f.tree, interest, p) && Below(f, home, next)
    ensures Fresh(f.tree, next + 1) && next + 1 !in home
    ensures Below(FoldOne(f, p, next + 1), Rehomed(home, Children(f.tree, p), next + 1), next + 1)
  {
    hide SizeOf, ExpandAll;
  }

  lemma SetSmaller(a: set<nat>, b: set<nat>, c: nat, p: nat)
    requires a <= b - {c} - {p} && c in b && p in b && c != p
    ensures |a| + 2 <= |b|
  {
    SubsetSize(a, b - {c} - {p});
  }

  lemma {:induction false} SubsetSize(a: set<nat>, b: set<nat>)
    requires a <= b
    ensures |a| <= |b|
    decreases |a|
  {
    if a != {} {
      var x :| x in a;
      SubsetSize(a - {x}, b - {x});
    }
  }

  // ----- where the leaves come from and what they weigh together

  /** The `n`-th node on the way up from `x`. */
  ghost function Above(t: Tree, x: nat, n: nat): Option<nat> {
    if n == 0 then Some(x)
    else match Above(t, x, n - 1)
      case None => None
      case Some(y) => if y in t then t[y].parent else None
  }

  ghost predicate Under(t: Tree, x: nat, a: nat) { exists n: nat :: Above(t, x, n) == Some(a) }

  lemma UnderParent(t: Tree, x: nat, c: nat, p: nat)
    requires Under(t, x, c) && c in t && t[c].parent == Some(p)
    ensures Under(t, x, p)
  {
    var n: nat :| Above(t, x, n) == Some(c);
    assert Above(t, x, n + 1) == Some(p);
  }

  /** Every node is in the place of an original node, and an original leaf is in a node that is in the
      place of one of the nodes above it. */
  ghost predicate Rooted(tree: Tree, f: Folded, home: map<nat, nat>, origin: map<nat, nat>) {
    && InPlace(tree, f, origin)
    && forall x :: x in home ==> home[x] in f.tree && Under(tree, x, origin[home[x]])
  }

  ghost predicate InPlace(tree: Tree, f: Folded, origin: map<nat, nat>) {
    && (forall id :: id in f.tree ==> id in origin && origin[id] in tree)
    && (forall id :: id in f.tree ==>
          tree[origin[id]].parent == f.tree[id].parent && tree[origin[id]].level == f.tree[id].level)
    && forall id :: id in f.tree && Children(f.tree, id) != {} ==> origin[id] == id
  }

  lemma FoldInPlace(tree: Tree, f: Folded, interest: set<nat>, p: nat, id: nat, origin: map<nat, nat>)
    requires Foldable(f.tree, interest, p) && Fresh(f.tree, id) && InPlace(tree, f, origin)
    ensures InPlace(tree, FoldOne(f, p, id), origin[id := p])
  {
    var f' := FoldOne(f, p, id);
    assert origin[p] == p;
    forall q | q in f'.tree
      ensures q in origin[id := p] && var o := origin[id := p][q];
              && o in tree && tree[o].parent == f'.tree[q].parent && tree[o].level == f'.tree[q].level
              && (Children(f'.tree, q) != {} ==> o == q)
    {
      ChildrenAfter(f.tree, interest, p, id, q);
    }
  }

  /** Nodes on levels that rules mention are still there, as themselves or folded. */
  ghost predicate Shown(tree: Tree, f: Folded, origin: map<nat, nat>, interest: set<nat>) {
    forall y :: y in tree && tree[y].level in interest ==> exists id :: id in f.tree && id in origin && origin[id] == y
  }

  lemma FoldShown(tree: Tree, f: Folded, interest: set<nat>, p: nat, id: nat, origin: map<nat, nat>)
    requires Foldable(f.tree, interest, p) && Fresh(f.tree, id) && InPlace(tree, f, origin)
    requires Shown(tree, f, origin, interest)
    ensures Shown(tree, FoldOne(f, p, id), origin[id := p], interest)
  {
    var f', origin' := FoldOne(f, p, id), origin[id := p];
    forall y | y in tree && tree[y].level in interest
      ensures exists q :: q in f'.tree && q in origin' && origin'[q] == y
    {
      var q :| q in f.tree && q in origin && origin[q] == y;
      if q == p {
        assert origin'[id] == y && id in f'.tree;
      } else {
        assert q !in Children(f.tree, p);
        assert q in f'.tree && origin'[q] == y;
      }
    }
  }

  lemma FoldRooted(tree: Tree, f: Folded, interest: set<nat>, p: nat, id: nat, home: map<nat, nat>,
          origin: map<nat, nat>)
    requires Foldable(f.tree, interest, p) && Fresh(f.tree, id) && Sound(f, home) && Rooted(tree, f, home, origin)
    ensures Rooted(tree, FoldOne(f, p, id), Rehomed(home, Children(f.tree, p), id), origin[id := p])
  {
    FoldInPlace(tree, f, interest, p, id, origin);
    var f', home' := FoldOne(f, p, id), Rehomed(home, Children(f.tree, p), id);
    forall x | x in home' ensures home'[x] in f'.tree && Under(tree, x, origin[id := p][home'[x]]) {
      FoldForth(f, interest, p, id, home, x);
      if home[x] in Children(f.tree, p) { UnderParent(tree, x, origin[home[x]], p); }
    }
  }

  ghost function SumOf(t: Tree, l: seq<nat>): real
    requires forall x :: x in l ==> x in t
  {
    if l == [] then 0.0 else t[l[0]].size + SumOf(t, l[1..])
  }

  lemma {:induction false} SumConcat(t: Tree, a: seq<nat>, b: seq<nat>)
    requires forall x :: x in a + b ==> x in t
    ensures (forall x :: x in a || x in b ==> x in a + b) && SumOf(t, a + b) == SumOf(t, a) + SumOf(t, b)
  {
    if a == [] {
      assert a + b == b;
    } else {
      assert (a + b)[1..] == a[1..] + b;
      SumConcat(t, a[1..], b);
    }
  }

  /** A leaf is as large as the original leaves in it together. */
  ghost predicate Weighed(tree: Tree, f: Folded, id: nat) {
    && id in f.tree && (forall x :: x in Expand(f, id) ==> x in tree)
    && f.tree[id].size == SumOf(tree, Expand(f, id))
  }

  ghost predicate AllWeighed(tree: Tree, f: Folded) { forall id :: id in Leaves(f.tree) ==> Weighed(tree, f, id) }

  lemma {:induction false} WeighSet(tree: Tree, f: Folded, s: set<nat>)
    requires forall id :: id in s ==> Weighed(tree, f, id)
    ensures s <= f.tree.Keys && (forall x :: x in ExpandAll(f, s) ==> x in tree)
    ensures SizeOf(f.tree, s) == SumOf(tree, ExpandAll(f, s))
    decreases |s|
  {
    if s != {} {
      var m := Least(s);
      WeighSet(tree, f, s - {m});
      assert Weighed(tree, f, m);
      SumConcat(tree, Expand(f, m), ExpandAll(f, s - {m}));
    }
  }

  lemma FoldWeighed(tree: Tree, f: Folded, interest: set<nat>, p: nat, id: nat)
    requires Foldable(f.tree, interest, p) && Fresh(f.tree, id) && AllWeighed(tree, f)
    ensures AllWeighed(tree, FoldOne(f, p, id))
  {
    var f' := FoldOne(f, p, id);
    LeavesAfter(f.tree, interest, p, id);
    hide Leaves;
    forall q | q in Leaves(f'.tree) ensures Weighed(tree, f', q) {
      if q == id {
        WeighSet(tree, f, Children(f.tree, p));
      } else {
        ExpandSame(f, interest, p, id, q);
        assert Weighed(tree, f, q);
      }
    }
  }

  /** What the folded tree keeps of the original one. */
  ghost predicate Keeps(tree: Tree, interest: set<nat>, f: Folded, home: map<nat, nat>, origin: map<nat, nat>) {
    Sound(f, home) && Rooted(tree, f, home, origin) && AllWeighed(tree, f) && Shown(tree, f, origin, interest)
  }

  // ----- the whole of fold_failure_domains

  /** A node that could be folded before another fold still can. */
  lemma StillFoldable(t: Tree, interest: set<nat>, p: nat, id: nat, q: nat)
    requires Foldable(t, interest, p) && Fresh(t, id) && Foldable(t, interest, q) && q != p
    ensures Foldable(FoldTree(t, p, id), interest, q) && Children(FoldTree(t, p, id), q) == Children(t, q)
  {
    var t' := FoldTree(t, p, id);
    assert q !in Children(t, p) && p !in Children(t, q);
    ChildrenAfter(t, interest, p, id, q);
    forall c | c in Children(t, q) ensures c in t' && Children(t', c) == {} && t'[c] == t[c] {
      ChildrenAfter(t, interest, p, id, c);
    }
  }

  lemma FoldKeeps(tree: Tree, f: Folded, interest: set<nat>, p: nat, home: map<nat, nat>, origin: map<nat, nat>,
          next: nat)
    requires Foldable(f.tree, interest, p) && Keeps(tree, interest, f, home, origin) && Below(f, home, next)
    ensures p in f.tree && Children(f.tree, p) <= f.tree.Keys && Fresh(f.tree, next + 1)
    ensures var f', home' := FoldOne(f, p, next + 1), Rehomed(home, Children(f.tree, p), next + 1);
            && Keeps(tree, interest, f', home', origin[next + 1 := p]) && Below(f', home', next + 1)
            && home'.Keys == home.Keys && |f'.tree| < |f.tree| && f'.tree == FoldTree(f.tree, p, next + 1)
  {
    hide Sound, Below, Leaves, SizeOf, AllWeighed, Shown;
    FoldBelow(f, interest, p, home, next);
    FoldSound(f, interest, p, next + 1, home);
    FoldShown(tree, f, interest, p, next + 1, origin);
    FoldRooted(tree, f, interest, p, next + 1, home, origin);
    FoldWeighed(tree, f, interest, p, next + 1);
    FoldSmaller(f.tree, interest, p, next + 1);
  }

  /** One pass: all nodes that can be folded at its start are. */
  method FoldPass(f0: Folded, interest: set<nat>, todo: set<nat>, next0: nat,
                  ghost tree: Tree, ghost home0: map<nat, nat>, ghost origin0: map<nat, nat>)
      returns (f: Folded, next: nat, ghost home: map<nat, nat>, ghost origin: map<nat, nat>)
    requires Keeps(tree, interest, f0, home0, origin0) && Below(f0, home0, next0)
    requires forall q :: q in todo ==> Foldable(f0.tree, interest, q)
    ensures Keeps(tree, interest, f, home, origin) && Below(f, home, next) && home.Keys == home0.Keys
    ensures |f.tree| <= |f0.tree| && (todo != {} ==> |f.tree| < |f0.tree|)
  {
    f, next, home, origin := f0, next0, home0, origin0;
    var rest := todo;
    hide Keeps, Below, Foldable, Fresh, Children;
    while rest != {}
      invariant Keeps(tree, interest, f, home, origin) && Below(f, home, next) && home.Keys == home0.Keys
      invariant rest <= todo
      invariant forall q :: q in rest ==> Foldable(f.tree, interest, q)
      invariant |f.tree| <= |f0.tree| && (rest != todo ==> |f.tree| < |f0.tree|)
      decreases |rest|
    {
      var p := Least(rest);
      FoldKeeps(tree, f, interest, p, home, origin, next);
      forall q | q in rest - {p} ensures Foldable(FoldTree(f.tree, p, next + 1), interest, q) {
        StillFoldable(f.tree, interest, p, next + 1, q);
      }
      home, origin := Rehomed(home, Children(f.tree, p), next + 1), origin[next + 1 := p];
      f, next, rest := FoldOne(f, p, next + 1), next + 1, rest - {p};
    }
  }

  /** `fold_failure_domains`: ends with nothing left to fold. Every original leaf is in exactly one leaf
      of the new tree, one that is in the place of a node above it, a leaf is as large as the original
      leaves in it, and no node on a level that rules mention is gone. */
  method FoldFailureDomains(tree: Tree, interest: set<nat>, maxId: nat)
      returns (f: Folded, ghost home: map<nat, nat>, ghost origin: map<nat, nat>)
    requires forall id :: id in tree ==> id <= maxId && (tree[id].parent.Some? ==> tree[id].parent.value <= maxId)
    ensures Keeps(tree, interest, f, home, origin) && home.Keys == Leaves(tree)
    ensures forall p :: !Foldable(f.tree, interest, p)
    ensures forall p, c :: p in f.tree && c in f.tree && f.tree[c].parent == Some(p) ==> Held(f.tree, interest, p)
  {
    f := Folded(tree, map[]);
    home := map x | x in Leaves(tree) :: x;
    origin := map x | x in tree :: x;
    var next := maxId;
    StartKeeps(tree, interest, maxId);
    var todo := set p | p in f.tree && Foldable(f.tree, interest, p);
    hide Keeps, Below, Leaves;
    while todo != {}
      invariant Keeps(tree, interest, f, home, origin) && Below(f, home, next) && home.Keys == Leaves(tree)
      invariant todo == set p | p in f.tree && Foldable(f.tree, interest, p)
      decreases |f.tree|
    {
      f, next, home, origin := FoldPass(f, interest, todo, next, tree, home, origin);
      todo := set p | p in f.tree && Foldable(f.tree, interest, p);
    }
    forall p ensures !Foldable(f.tree, interest, p) { assert p !in todo; }
    forall p, c | p in f.tree && c in f.tree && f.tree[c].parent == Some(p) ensures Held(f.tree, interest, p) {
      HeldUp(f.tree, interest, p, c);
    }
  }

  /** Some child of the node is on a level that rules mention or has children itself. */
  predicate Held(t: Tree, interest: set<nat>, p: nat) {
    exists c :: c in t && t[c].parent == Some(p) && (t[c].level in interest || HasChild(t, c))
  }

  predicate HasChild(t: Tree, c: nat) { exists d :: d in t && t[d].parent == Some(c) }

  lemma HeldUp(t: Tree, interest: set<nat>, p: nat, c: nat)
    requires p in t && c in t && t[c].parent == Some(p) && !Foldable(t, interest, p)
    ensures Held(t, interest, p)
  {
    assert c in Children(t, p);
    var k :| k in Children(t, p) && !(Children(t, k) == {} && t[k].level !in interest);
    if Children(t, k) != {} {
      var d :| d in Children(t, k);
      assert HasChild(t, k);
    }
  }

  lemma StartKeeps(tree: Tree, interest: set<nat>, maxId: nat)
    requires forall id :: id in tree ==> id <= maxId && (tree[id].parent.Some? ==> tree[id].parent.value <= maxId)
    ensures var f, home, origin := Folded(tree, map[]), map x | x in Leaves(tree) :: x, map x | x in tree :: x;
            Keeps(tree, interest, f, home, origin) && Below(f, home, maxId)
  {
    var f, home, origin := Folded(tree, map[]), map x | x in Leaves(tree) :: x, map x | x in tree :: x;
    forall x | x in home ensures Under(tree, x, x) { assert Above(tree, x, 0) == Some(x); }
    forall y | y in tree ensures exists id :: id in f.tree && id in origin && origin[id] == y { assert origin[y] == y; }
    forall id | id in Leaves(tree) ensures Weighed(tree, f, id) {
      assert Expand(f, id) == [id] && [id][1..] == [];
    }
  }

  /** The leaves of the new tree are together as large as the original ones. */
  lemma TotalSize(tree: Tree, interest: set<nat>, f: Folded, home: map<nat, nat>, origin: map<nat, nat>)
    requires Keeps(tree, interest, f, home, origin) && home.Keys == Leaves(tree)
    ensures SizeOf(f.tree, Leaves(f.tree)) == SizeOf(tree, Leaves(tree))
  {
    var all := ExpandAll(f, Leaves(f.tree));
    WeighSet(tree, f, Leaves(f.tree));
    NoDupAll(f, Leaves(f.tree), home);
    forall x ensures x in all <==> x in home { InExpandAll(f, Leaves(f.tree), x); }
    SumIsSize(tree, all, Leaves(tree));
  }

  lemma {:induction false} SumIsSize(t: Tree, l: seq<nat>, s: set<nat>)
    requires NoDup(l) && s <= t.Keys && forall x :: x in l <==> x in s
    ensures SumOf(t, l) == SizeOf(t, s)
  {
    if l != [] {
      assert l[0] in s && forall x :: x in l[1..] <==> x in s - {l[0]};
      SizePick(t, s, l[0]);
      SumIsSize(t, l[1..], s - {l[0]});
    } else {
      assert s == {};
    }
  }
}
