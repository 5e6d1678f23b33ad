/** Placement rules from level indexes: for every level one symbol per position of a placement group,
    where positions with equal symbols must be in the same node of that level and others must not. */
module LevelRules {

  /** The level of position `i` is that of an earlier position, or differs from those of some. Positions
      in rules start from 1. */
  datatype Rule = Same(level: nat, pos: nat) | Differ(level: nat, others: seq<nat>)

  /** A symbol that looks like an array index, or another one. */
  datatype Symbol = Number(n: nat) | Word(w: nat)

  datatype Index = Index(level: nat, symbols: seq<Symbol>)

  // ----- what rules and indexes mean

  /** The nodes chosen so far: for each position its node on each level. */
  type Choice = seq<map<nat, nat>>

  /** The operators `=` and `!=` of `filter_tree_by_rules`. */
  predicate Holds(a: Choice, i: nat, r: Rule)
    requires i < |a|
  {
    r.level in a[i] &&
    match r
    case Same(l, p) => 1 <= p <= |a| && l in a[p - 1] && a[p - 1][l] == a[i][l]
    case Differ(l, others) => forall o :: o in others && 1 <= o <= |a| && l in a[o - 1] ==> a[o - 1][l] != a[i][l]
  }

  predicate RowHolds(a: Choice, i: nat, row: seq<Rule>)
    requires i < |a|
  {
    forall r :: r in row ==> Holds(a, i, r)
  }

  predicate Accepts(a: Choice, rules: seq<seq<Rule>>)
    requires |a| == |rules|
  {
    forall i :: 0 <= i < |rules| ==> RowHolds(a, i, rules[i])
  }

  /** Every position has a node on the level. */
  predicate Has(a: Choice, level: nat) { forall i :: 0 <= i < |a| ==> level in a[i] }

  /** Two positions share a node of the level exactly when their symbols are equal. */
  predicate Respects(a: Choice, x: Index)
    requires |x.symbols| <= |a| && Has(a, x.level)
  {
    forall i, j :: 0 <= i < |x.symbols| && 0 <= j < |x.symbols| ==>
      (a[i][x.level] == a[j][x.level] <==> x.symbols[i] == x.symbols[j])
  }

  // ----- the rules of one level

  /** The first position with the symbol of position `i`. */
  function First(s: seq<Symbol>, i: nat): (k: nat)
    requires i < |s|
    ensures k <= i && s[k] == s[i] && forall h :: 0 <= h < k ==> s[h] != s[i]
  {
    FirstFrom(s, i, 0)
  }

  function FirstFrom(s: seq<Symbol>, i: nat, from: nat): (k: nat)
    requires from <= i < |s|
    ensures from <= k <= i && s[k] == s[i] && forall h :: from <= h < k ==> s[h] != s[i]
    decreases i - from
  {
    if s[from] == s[i] then from else FirstFrom(s, i, from + 1)
  }

  /** The order of the properties of an object: numbers by value, then the others by age. */
  predicate Precedes(a: Symbol, b: Symbol) { a.Number? && (b.Number? ==> a.n < b.n) }

  function SymbolAt(s: seq<Symbol>, o: nat): Symbol { if 1 <= o <= |s| then s[o - 1] else Word(0) }

  /** The values of the object when a property for the symbol of position `o` is new. */
  function Insert(s: seq<Symbol>, firsts: seq<nat>, o: nat): seq<nat>
    decreases |firsts|
  {
    if firsts == [] then [o]
    else
      var n := |firsts| - 1;
      if Precedes(SymbolAt(s, o), SymbolAt(s, firsts[n])) then Insert(s, firsts[..n], o) + [firsts[n]] else firsts + [o]
  }

  lemma {:induction false} InInsert(s: seq<Symbol>, firsts: seq<nat>, o: nat, p: nat)
    ensures p in Insert(s, firsts, o) <==> p in firsts || p == o
    decreases |firsts|
  {
    if firsts != [] {
      var n := |firsts| - 1;
      assert firsts == firsts[..n] + [firsts[n]];
      InInsert(s, firsts[..n], o, p);
    }
  }

  /** The first positions of the symbols before `i`, in the order of the properties. */
  function Firsts(s: seq<Symbol>, i: nat): seq<nat>
    requires i <= |s|
  {
    if i == 0 then []
    else if First(s, i - 1) == i - 1 then Insert(s, Firsts(s, i - 1), i)
    else Firsts(s, i - 1)
  }

  lemma {:induction false} InFirsts(s: seq<Symbol>, i: nat, o: nat)
    requires i <= |s|
    ensures o in Firsts(s, i) <==> 1 <= o <= i && First(s, o - 1) == o - 1
  {
    if i > 0 {
      InFirsts(s, i - 1, o);
      InInsert(s, Firsts(s, i - 1), i, o);
    }
  }

  /** Position `o` comes before `p` in the list: its symbol is a lower number, or a number and the other is not,
      or both are not and it is the earlier position. */
  predicate Earlier(s: seq<Symbol>, o: nat, p: nat) {
    var a, b := SymbolAt(s, o), SymbolAt(s, p);
    Precedes(a, b) || (a.Word? && b.Word? && o < p)
  }

  ghost predicate Arranged(s: seq<Symbol>, r: seq<nat>) {
    forall h, k :: 0 <= h < k < |r| ==> Earlier(s, r[h], r[k])
  }

  lemma ArrangedSnoc(s: seq<Symbol>, r: seq<nat>, o: nat)
    requires Arranged(s, r) && forall p :: p in r ==> Earlier(s, p, o)
    ensures Arranged(s, r + [o])
  {
    hide Earlier;
  }

  lemma {:induction false} InsertArranged(s: seq<Symbol>, firsts: seq<nat>, o: nat)
    requires Arranged(s, firsts) && forall p :: p in firsts ==> p < o && SymbolAt(s, p) != SymbolAt(s, o)
    ensures Arranged(s, Insert(s, firsts, o))
    decreases |firsts|
  {
    if firsts != [] {
      var n := |firsts| - 1;
      forall p | p in firsts[..n] ensures Earlier(s, p, firsts[n]) {
        var m :| 0 <= m < n && firsts[..n][m] == p;
        assert Earlier(s, firsts[m], firsts[n]);
      }
      assert firsts[n] in firsts;
      if Precedes(SymbolAt(s, o), SymbolAt(s, firsts[n])) {
        InsertArranged(s, firsts[..n], o);
        forall p | p in Insert(s, firsts[..n], o) ensures Earlier(s, p, firsts[n]) { InInsert(s, firsts[..n], o, p); }
        ArrangedSnoc(s, Insert(s, firsts[..n], o), firsts[n]);
      } else {
        forall p | p in firsts ensures Earlier(s, p, o) { assert p == firsts[n] || p in firsts[..n]; }
        ArrangedSnoc(s, firsts, o);
      }
    }
  }

  /** The list is in the order of the properties. */
  lemma {:induction false} FirstsArranged(s: seq<Symbol>, i: nat)
    requires i <= |s|
    ensures Arranged(s, Firsts(s, i))
  {
    hide Arranged, Earlier;
    if i > 0 {
      FirstsArranged(s, i - 1);
      if First(s, i - 1) == i - 1 {
        var firsts := Firsts(s, i - 1);
        forall p | p in firsts ensures p < i && SymbolAt(s, p) != SymbolAt(s, i) { InFirsts(s, i - 1, p); }
        InsertArranged(s, firsts, i);
      }
    } else {
      NothingArranged(s);
    }
  }

  lemma NothingArranged(s: seq<Symbol>)
    ensures Arranged(s, [])
  {
  }

  function RuleAt(x: Index, i: nat): seq<Rule> {
    if i >= |x.symbols| then []
    else if First(x.symbols, i) < i then [Same(x.level, First(x.symbols, i) + 1)]
    else if i == 0 then []
    else [Differ(x.level, Firsts(x.symbols, i))]
  }

  ghost predicate LevelHolds(a: Choice, x: Index) { forall i :: 0 <= i < |a| ==> RowHolds(a, i, RuleAt(x, i)) }

  lemma SymbolsNodes(a: Choice, x: Index, i: nat)
    requires |x.symbols| <= |a| && Has(a, x.level) && LevelHolds(a, x) && i < |x.symbols|
    ensures a[i][x.level] == a[First(x.symbols, i)][x.level]
  {
    assert RowHolds(a, i, RuleAt(x, i));
    if First(x.symbols, i) < i { assert Same(x.level, First(x.symbols, i) + 1) in RuleAt(x, i); }
  }

  lemma FirstsNodes(a: Choice, x: Index, i: nat, j: nat)
    requires |x.symbols| <= |a| && Has(a, x.level) && LevelHolds(a, x) && j < i < |x.symbols|
    requires First(x.symbols, i) == i && First(x.symbols, j) == j
    ensures a[i][x.level] != a[j][x.level]
  {
    assert RowHolds(a, i, RuleAt(x, i));
    assert Differ(x.level, Firsts(x.symbols, i)) in RuleAt(x, i);
    InFirsts(x.symbols, i, j + 1);
  }

  lemma HoldsRespects(a: Choice, x: Index)
    requires |x.symbols| <= |a| && Has(a, x.level) && LevelHolds(a, x)
    ensures Respects(a, x)
  {
    hide Firsts, RuleAt, Holds, LevelHolds;
    var s := x.symbols;
    forall i, j | 0 <= i < |s| && 0 <= j < |s| ensures a[i][x.level] == a[j][x.level] <==> s[i] == s[j] {
      var f, g := First(s, i), First(s, j);
      SymbolsNodes(a, x, i);
      SymbolsNodes(a, x, j);
      if f < g { FirstsNodes(a, x, g, f); } else if g < f { FirstsNodes(a, x, f, g); }
    }
  }

  lemma RespectsHolds(a: Choice, x: Index, i: nat)
    requires |x.symbols| <= |a| && Has(a, x.level) && Respects(a, x) && i < |a|
    ensures RowHolds(a, i, RuleAt(x, i))
  {
    hide Firsts;
    var s := x.symbols;
    if i < |s| && First(s, i) == i {
      forall o | o in Firsts(s, i) ensures 1 <= o <= i && a[o - 1][x.level] != a[i][x.level] {
        InFirsts(s, i, o);
        assert s[o - 1] != s[i];
      }
    }
  }

  /** The rules of a level hold exactly when its index is respected. */
  lemma LevelMeans(a: Choice, x: Index)
    requires |x.symbols| <= |a| && Has(a, x.level)
    ensures LevelHolds(a, x) <==> Respects(a, x)
  {
    hide Respects, RowHolds, RuleAt;
    if LevelHolds(a, x) { HoldsRespects(a, x); }
    if Respects(a, x) {
      forall i | 0 <= i < |a| ensures RowHolds(a, i, RuleAt(x, i)) { RespectsHolds(a, x, i); }
    }
  }

  // ----- the rules of all levels

  function Width(index: seq<Index>): (w: nat)
    ensures forall k :: 0 <= k < |index| ==> |index[k].symbols| <= w
  {
    if index == [] then 0
    else var n := |index| - 1;
         var w, s := Width(index[..n]), |index[n].symbols|;
         assert forall k :: 0 <= k < n ==> index[..n][k] == index[k];
         if w < s then s else w
  }

  function RulesAt(index: seq<Index>, i: nat): seq<Rule> {
    if index == [] then [] else RulesAt(index[..|index| - 1], i) + RuleAt(index[|index| - 1], i)
  }

  lemma {:induction false} InRulesAt(index: seq<Index>, i: nat, r: Rule)
    ensures r in RulesAt(index, i) <==> exists k :: 0 <= k < |index| && r in RuleAt(index[k], i)
  {
    hide RuleAt;
    if index != [] {
      var n := |index| - 1;
      InRulesAt(index[..n], i, r);
      if r in RulesAt(index[..n], i) {
        var k :| 0 <= k < n && r in RuleAt(index[..n][k], i);
        assert r in RuleAt(index[k], i);
      }
      if k :| 0 <= k < |index| && r in RuleAt(index[k], i) {
        if k < n { assert r in RuleAt(index[..n][k], i); }
      }
    }
  }

  lemma {:induction false} NoRules(index: seq<Index>, i: nat)
    requires i >= Width(index)
    ensures RulesAt(index, i) == []
  {
    if index != [] { NoRules(index[..|index| - 1], i); }
  }

  /** The full rules. */
  ghost predicate Full(index: seq<Index>, rules: seq<seq<Rule>>) {
    |rules| == Width(index) && forall i :: 0 <= i < |rules| ==> rules[i] == RulesAt(index, i)
  }

  ghost predicate AllHave(a: Choice, index: seq<Index>) { forall k :: 0 <= k < |index| ==> Has(a, index[k].level) }

  /** Rule compilation keeps the meaning: the rules accept exactly the choices that respect every index. */
  lemma RulesMean(a: Choice, index: seq<Index>, rules: seq<seq<Rule>>)
    requires Full(index, rules) && |a| == |rules| && AllHave(a, index)
    ensures Accepts(a, rules) <==> forall k :: 0 <= k < |index| ==> Respects(a, index[k])
  {
    hide Holds, RuleAt, Respects;
    if Accepts(a, rules) {
      forall k | 0 <= k < |index| ensures Respects(a, index[k]) {
        forall i | 0 <= i < |a| ensures RowHolds(a, i, RuleAt(index[k], i)) {
          forall r | r in RuleAt(index[k], i) ensures Holds(a, i, r) { InRulesAt(index, i, r); }
        }
        LevelMeans(a, index[k]);
      }
    }
    if forall k :: 0 <= k < |index| ==> Respects(a, index[k]) {
      forall i, r | 0 <= i < |rules| && r in rules[i] ensures Holds(a, i, r) {
        InRulesAt(index, i, r);
        var k :| 0 <= k < |index| && r in RuleAt(index[k], i);
        LevelMeans(a, index[k]);
        assert RowHolds(a, i, RuleAt(index[k], i));
      }
    }
  }

  /** A rule only looks at earlier positions, which are chosen by then. */
  lemma RulesLookBack(index: seq<Index>, i: nat, r: Rule)
    requires r in RulesAt(index, i)
    ensures r.Same? ==> 1 <= r.pos <= i
    ensures r.Differ? ==> r.others != [] && forall o :: o in r.others ==> 1 <= o <= i
  {
    hide RuleAt;
    InRulesAt(index, i, r);
    var k :| 0 <= k < |index| && r in RuleAt(index[k], i);
    RuleLooksBack(index[k], i, r);
  }

  lemma RuleLooksBack(x: Index, i: nat, r: Rule)
    requires r in RuleAt(x, i)
    ensures r.Same? ==> 1 <= r.pos <= i
    ensures r.Differ? ==> r.others != [] && forall o :: o in r.others ==> 1 <= o <= i
  {
    hide Firsts;
    if r.Differ? {
      InFirsts(x.symbols, i, 1);
      forall o | o in r.others ensures 1 <= o <= i { InFirsts(x.symbols, i, o); }
    }
  }

  /** `seen` has the first position of each symbol before `i`. */
  ghost predicate Seen(s: seq<Symbol>, i: nat, seen: map<Symbol, nat>) {
    && i <= |s| && (forall h :: 0 <= h < i ==> s[h] in seen)
    && forall c :: c in seen ==> 1 <= seen[c] <= i && s[seen[c] - 1] == c && forall h :: 0 <= h < seen[c] - 1 ==>
      s[h] != c
  }

  lemma SeenIff(s: seq<Symbol>, i: nat, seen: map<Symbol, nat>)
    requires i < |s| && Seen(s, i, seen)
    ensures s[i] in seen <==> First(s, i) < i
    ensures s[i] in seen ==> seen[s[i]] == First(s, i) + 1 && Seen(s, i + 1, seen)
    ensures s[i] !in seen ==> Seen(s, i + 1, seen[s[i] := i + 1])
  {
    var k := First(s, i);
    if k < i { assert s[k] in seen; }
    if s[i] in seen {
      var h: nat := seen[s[i]] - 1;
      assert s[h] == s[i] && !(h < k) && !(k < h);
    }
  }

  lemma FirstsEmpty(s: seq<Symbol>, i: nat)
    requires i <= |s|
    ensures Firsts(s, i) == [] <==> i == 0
  {
    if i > 0 { InFirsts(s, i, 1); }
  }

  /** The rule of position `i` by the symbols seen before it. */
  lemma NextRule(x: Index, i: nat, seen: map<Symbol, nat>)
    requires i < |x.symbols| && Seen(x.symbols, i, seen)
    ensures var s, firsts := x.symbols, Firsts(x.symbols, i);
            && Firsts(s, i + 1) == (if s[i] in seen then firsts else Insert(s, firsts, i + 1))
            && RuleAt(x, i) == (if s[i] in seen then [Same(x.level, seen[s[i]])]
                                else if firsts == [] then [] else [Differ(x.level, firsts)])
            && Seen(s, i + 1, if s[i] in seen then seen else seen[s[i] := i + 1])
  {
    SeenIff(x.symbols, i, seen);
    FirstsEmpty(x.symbols, i);
    hide Seen, First;
  }

  /** The rules of the level are there for the first `i` positions. */
  ghost predicate Added(x: Index, rules0: seq<seq<Rule>>, rules: seq<seq<Rule>>, i: nat) {
    |rules| == |rules0| && forall h :: 0 <= h < |rules| ==> rules[h] == rules0[h] + if h < i then RuleAt(x, h) else []
  }

  lemma AddedNext(x: Index, rules0: seq<seq<Rule>>, rules: seq<seq<Rule>>, i: nat)
    requires Added(x, rules0, rules, i) && i < |rules|
    ensures Added(x, rules0, rules[i := rules[i] + RuleAt(x, i)], i + 1)
    ensures RuleAt(x, i) == [] ==> Added(x, rules0, rules, i + 1)
  {
    hide RuleAt;
  }

  lemma AddedAll(x: Index, rules0: seq<seq<Rule>>, rules: seq<seq<Rule>>, i: nat)
    requires Added(x, rules0, rules, |x.symbols|) && i < |rules|
    ensures |rules| == |rules0| && rules[i] == rules0[i] + RuleAt(x, i)
  {
  }

  /** The loop over the symbols of a level at position `i`; `firsts` are the values of `seen`. */
  ghost predicate Adding(x: Index, rules0: seq<seq<Rule>>, i: nat, rules: seq<seq<Rule>>, seen: map<Symbol, nat>,
                         firsts: seq<nat>) {
    i <= |x.symbols| && firsts == Firsts(x.symbols, i) && Seen(x.symbols, i, seen) && Added(x, rules0, rules, i)
  }

  lemma AddingNext(x: Index, rules0: seq<seq<Rule>>, i: nat, rules: seq<seq<Rule>>, seen: map<Symbol, nat>,
          firsts: seq<nat>)
    requires Adding(x, rules0, i, rules, seen, firsts) && i < |x.symbols| && i < |rules|
    ensures var c := x.symbols[i];
            if c in seen then Adding(x, rules0, i + 1, rules[i := rules[i] + [Same(x.level, seen[c])]], seen, firsts)
            else
              Adding(x, rules0, i + 1, if firsts == [] then rules
                       else rules[i := rules[i] + [Differ(x.level, firsts)]],
                     seen[c := i + 1], Insert(x.symbols, firsts, i + 1))
  {
    hide Seen, First, Firsts, RuleAt, Added, Insert;
    NextRule(x, i, seen);
    AddedNext(x, rules0, rules, i);
  }

  lemma AddingStart(x: Index, rules0: seq<seq<Rule>>)
    ensures Adding(x, rules0, 0, rules0, map[], [])
  {
  }

  /** The rules of one level are added. */
  method AddLevel(x: Index, rules0: seq<seq<Rule>>) returns (rules: seq<seq<Rule>>)
    requires |x.symbols| <= |rules0|
    ensures |rules| == |rules0| && forall i :: 0 <= i < |rules| ==> rules[i] == rules0[i] + RuleAt(x, i)
  {
    hide Adding, RuleAt, Insert;
    rules := rules0;
    var seen: map<Symbol, nat> := map[];
    var firsts: seq<nat> := [];
    var s := x.symbols;
    AddingStart(x, rules0);
    for i := 0 to |s|
      invariant |rules| == |rules0| && Adding(x, rules0, i, rules, seen, firsts)
    {
      AddingNext(x, rules0, i, rules, seen, firsts);
      if s[i] !in seen {
        if firsts != [] { rules := rules[i := rules[i] + [Differ(x.level, firsts)]]; }
        seen := seen[s[i] := i + 1];
        firsts := Insert(s, firsts, i + 1);
      } else {
        rules := rules[i := rules[i] + [Same(x.level, seen[s[i]])]];
      }
    }
    AddingEnd(x, rules0, rules, seen, firsts);
  }

  lemma AddingEnd(x: Index, rules0: seq<seq<Rule>>, rules: seq<seq<Rule>>, seen: map<Symbol, nat>, firsts: seq<nat>)
    requires Adding(x, rules0, |x.symbols|, rules, seen, firsts)
    ensures |rules| == |rules0| && forall i :: 0 <= i < |rules| ==> rules[i] == rules0[i] + RuleAt(x, i)
  {
    hide RuleAt, Firsts, Seen;
    forall i | 0 <= i < |rules| ensures rules[i] == rules0[i] + RuleAt(x, i) { AddedAll(x, rules0, rules, i); }
  }

  /** The rules of some levels, for at least as many positions as they have. */
  ghost predicate Long(index: seq<Index>, rules: seq<seq<Rule>>) {
    |rules| >= Width(index) && forall i :: 0 <= i < |rules| ==> rules[i] == RulesAt(index, i)
  }

  lemma LongMore(index: seq<Index>, rules: seq<seq<Rule>>)
    requires Long(index, rules)
    ensures Long(index, rules + [[]])
  {
    NoRules(index, |rules|);
  }

  lemma LongNext(index: seq<Index>, k: nat, rules: seq<seq<Rule>>, rules': seq<seq<Rule>>)
    requires k < |index| && Long(index[..k], rules) && |rules| == |rules'|
    requires |rules| == if |index[k].symbols| > Width(index[..k]) then |index[k].symbols| else Width(index[..k])
    requires forall i :: 0 <= i < |rules| ==> rules'[i] == rules[i] + RuleAt(index[k], i)
    ensures Long(index[..k + 1], rules') && |rules'| == Width(index[..k + 1])
  {
    assert index[..k + 1][..k] == index[..k];
    hide RuleAt;
  }

  /** `parse_level_indexes` without a level sequence. */
  method CompileRules(index: seq<Index>) returns (rules: seq<seq<Rule>>)
    ensures Full(index, rules)
  {
    rules := [];
    assert Long(index[..0], rules) by { assert index[..0] == []; }
    hide RuleAt, Long, RulesAt;
    for k := 0 to |index|
      invariant Long(index[..k], rules) && |rules| == Width(index[..k])
    {
      hide Width;
      while |rules| < |index[k].symbols|
        invariant Long(index[..k], rules)
        invariant |rules| == Width(index[..k]) || Width(index[..k]) < |rules| <= |index[k].symbols|
      {
        LongMore(index[..k], rules);
        rules := rules + [[]];
      }
      ghost var before := rules;
      rules := AddLevel(index[k], rules);
      LongNext(index, k, before, rules);
    }
    LongFull(index, rules);
  }

  lemma LongFull(index: seq<Index>, rules: seq<seq<Rule>>)
    requires Long(index[..|index|], rules) && |rules| == Width(index[..|index|])
    ensures Full(index, rules)
  {
    assert index[..|index|] == index;
  }

  // ----- pruning

  /** The level is below number `u` of the sequence. */
  predicate Lower(sequence: seq<nat>, u: nat, l: nat) { exists p :: u < p < |sequence| && sequence[p] == l }

  ghost predicate Distinct(index: seq<Index>) {
    forall h, k :: 0 <= h < k < |index| ==> index[h].level != index[k].level
  }

  /** The symbols of a level; none for a level without an index. */
  function Symbols(index: seq<Index>, l: nat): seq<Symbol> {
    if index == [] then []
    else if index[|index| - 1].level == l then index[|index| - 1].symbols
    else Symbols(index[..|index| - 1], l)
  }

  lemma {:induction false} SymbolsOf(index: seq<Index>, k: nat)
    requires Distinct(index) && k < |index|
    ensures Symbols(index, index[k].level) == index[k].symbols
  {
    if k < |index| - 1 { SymbolsOf(index[..|index| - 1], k); }
  }

  /** Positions `i` and `o` have different symbols on some level. */
  predicate Unlike(s: seq<Symbol>, i: nat, o: nat) { 1 <= o <= |s| && (i >= |s| || s[o - 1] != s[i]) }

  /** One of the first `upto` levels of the sequence is above `l` and tells `o` from `i`. */
  ghost predicate Excused(index: seq<Index>, sequence: seq<nat>, upto: nat, l: nat, i: nat, o: nat) {
    exists u :: 0 <= u < upto && u < |sequence| && Lower(sequence, u, l) && Unlike(Symbols(index, sequence[u]), i, o)
  }

  ghost function Kept(index: seq<Index>, sequence: seq<nat>, upto: nat, l: nat, i: nat, os: seq<nat>): (r: seq<nat>)
    ensures forall o :: o in r <==> o in os && !Excused(index, sequence, upto, l, i, o)
  {
    if os == [] then []
    else (if Excused(index, sequence, upto, l, i, os[0]) then []
        else [os[0]]) + Kept(index, sequence, upto, l, i, os[1..])
  }

  /** What is left of the rules of position `i` after `upto` levels of the sequence. */
  ghost function RowAfter(index: seq<Index>, sequence: seq<nat>, upto: nat, i: nat, row: seq<Rule>): seq<Rule> {
    if row == [] then []
    else RuleAfter(index, sequence, upto, i, row[0]) + RowAfter(index, sequence, upto, i, row[1..])
  }

  ghost function RuleAfter(index: seq<Index>, sequence: seq<nat>, upto: nat, i: nat, r: Rule): seq<Rule> {
    match r
    case Same(_, _) => [r]
    case Differ(l, os) => var k := Kept(index, sequence, upto, l, i, os); if k == [] then [] else [Differ(l, k)]
  }

  function Minus(os: seq<nat>, noteq: set<nat>): (r: seq<nat>)
    ensures forall o :: o in r <==> o in os && o !in noteq
  {
    if os == [] then [] else (if os[0] in noteq then [] else [os[0]]) + Minus(os[1..], noteq)
  }

  /** One step of the pruning on the rules of one position. */
  function Pass(sequence: seq<nat>, u: nat, noteq: set<nat>, row: seq<Rule>): seq<Rule> {
    if row == [] then [] else PassRule(sequence, u, noteq, row[0]) + Pass(sequence, u, noteq, row[1..])
  }

  function PassRule(sequence: seq<nat>, u: nat, noteq: set<nat>, r: Rule): seq<Rule> {
    if r.Differ? && Lower(sequence, u, r.level) then
      var os := Minus(r.others, noteq);
      if os == [] then [] else [Differ(r.level, os)]
    else [r]
  }

  lemma {:induction false} PassConcat(sequence: seq<nat>, u: nat, noteq: set<nat>, a: seq<Rule>, b: seq<Rule>)
    ensures Pass(sequence, u, noteq, a + b) == Pass(sequence, u, noteq, a) + Pass(sequence, u, noteq, b)
  {
    if a == [] {
      assert a + b == b;
    } else {
      assert (a + b)[1..] == a[1..] + b;
      PassConcat(sequence, u, noteq, a[1..], b);
    }
  }

  ghost predicate IsNoteq(index: seq<Index>, sequence: seq<nat>, u: nat, i: nat, noteq: set<nat>) {
    u < |sequence| && forall o: nat :: o in noteq <==> Unlike(Symbols(index, sequence[u]), i, o)
  }

  lemma ExcusedNext(index: seq<Index>, sequence: seq<nat>, u: nat, l: nat, i: nat, o: nat)
    requires u < |sequence|
    ensures Excused(index, sequence, u + 1, l, i, o) <==>
            Excused(index, sequence, u, l, i, o) || (Lower(sequence, u, l) && Unlike(Symbols(index, sequence[u]), i, o))
  {
    hide Symbols, Lower, Unlike;
  }

  lemma MinusCons(x: nat, k: seq<nat>, noteq: set<nat>)
    ensures Minus([x] + k, noteq) == if x in noteq then Minus(k, noteq) else [x] + Minus(k, noteq)
  {
    assert ([x] + k)[1..] == k;
  }

  lemma {:induction false} KeptNext(index: seq<Index>, sequence: seq<nat>, u: nat, l: nat, i: nat, os: seq<nat>,
          noteq: set<nat>)
    requires IsNoteq(index, sequence, u, i, noteq)
    ensures var k := Kept(index, sequence, u, l, i, os);
            Kept(index, sequence, u + 1, l, i, os) == if Lower(sequence, u, l) then Minus(k, noteq) else k
  {
    hide Symbols, Lower, Unlike, Excused;
    if os != [] {
      ExcusedNext(index, sequence, u, l, i, os[0]);
      KeptNext(index, sequence, u, l, i, os[1..], noteq);
      var k, k' := Kept(index, sequence, u, l, i, os[1..]), Kept(index, sequence, u + 1, l, i, os[1..]);
      if Excused(index, sequence, u, l, i, os[0]) {
        assert Kept(index, sequence, u, l, i, os) == k && Kept(index, sequence, u + 1, l, i, os) == k';
      } else {
        MinusCons(os[0], k, noteq);
        assert Excused(index, sequence, u + 1, l, i, os[0]) ==> Kept(index, sequence, u + 1, l, i, os) == k';
      }
    }
  }

  lemma RuleNext(index: seq<Index>, sequence: seq<nat>, u: nat, i: nat, r: Rule, noteq: set<nat>)
    requires IsNoteq(index, sequence, u, i, noteq)
    ensures RuleAfter(index, sequence, u + 1, i, r) == Pass(sequence, u, noteq, RuleAfter(index, sequence, u, i, r))
  {
    var before := RuleAfter(index, sequence, u, i, r);
    if r.Differ? { KeptNext(index, sequence, u, r.level, i, r.others, noteq); }
    if before != [] {
      assert before[1..] == [] && Pass(sequence, u, noteq, before) == PassRule(sequence, u, noteq, before[0]);
    }
  }

  lemma {:induction false} RowNext(index: seq<Index>, sequence: seq<nat>, u: nat, i: nat, row: seq<Rule>,
          noteq: set<nat>)
    requires IsNoteq(index, sequence, u, i, noteq)
    ensures RowAfter(index, sequence, u + 1, i, row) == Pass(sequence, u, noteq, RowAfter(index, sequence, u, i, row))
  {
    hide RuleAfter, IsNoteq;
    if row != [] {
      RuleNext(index, sequence, u, i, row[0], noteq);
      RowNext(index, sequence, u, i, row[1..], noteq);
      PassConcat(sequence, u, noteq, RuleAfter(index, sequence, u, i, row[0]),
              RowAfter(index, sequence, u, i, row[1..]));
    }
  }

  lemma {:induction false} RowStart(index: seq<Index>, sequence: seq<nat>, i: nat, row: seq<Rule>)
    requires forall r :: r in row && r.Differ? ==> r.others != []
    ensures RowAfter(index, sequence, 0, i, row) == row
  {
    if row != [] {
      RowStart(index, sequence, i, row[1..]);
      if row[0].Differ? { KeptStart(index, sequence, row[0].level, i, row[0].others); }
      assert row == [row[0]] + row[1..];
    }
  }

  lemma {:induction false} KeptStart(index: seq<Index>, sequence: seq<nat>, l: nat, i: nat, os: seq<nat>)
    ensures Kept(index, sequence, 0, l, i, os) == os
  {
    if os != [] { KeptStart(index, sequence, l, i, os[1..]); }
  }

  // ----- the loops of the pruning

  method NoteqOf(s: seq<Symbol>, i: nat) returns (noteq: set<nat>)
    ensures forall o: nat :: o in noteq <==> Unlike(s, i, o)
  {
    noteq := {};
    for k := 0 to |s|
      invariant forall o: nat :: o in noteq <==> o <= k && Unlike(s, i, o)
    {
      if i >= |s| || s[k] != s[i] { noteq := noteq + {k + 1}; }
    }
  }

  /** The rules up to `j` are done. */
  ghost predicate Progress(sequence: seq<nat>, u: nat, noteq: set<nat>, row0: seq<Rule>, row: seq<Rule>, j: nat) {
    j <= |row| && row[..j] + Pass(sequence, u, noteq, row[j..]) == Pass(sequence, u, noteq, row0)
  }

  lemma ProgressStep(sequence: seq<nat>, u: nat, noteq: set<nat>, row0: seq<Rule>, row: seq<Rule>, j: nat)
    requires Progress(sequence, u, noteq, row0, row, j) && j < |row|
    ensures var d := PassRule(sequence, u, noteq, row[j]);
            if d == [] then Progress(sequence, u, noteq, row0, row[..j] + row[j + 1..], j)
            else Progress(sequence, u, noteq, row0, row[j := d[0]], j + 1)
  {
    var head, tail, d := row[..j], row[j + 1..], PassRule(sequence, u, noteq, row[j]);
    assert row[j..][1..] == tail && Pass(sequence, u, noteq, row[j..]) == d + Pass(sequence, u, noteq, tail);
    hide Pass, PassRule;
    if d == [] {
      assert (head + tail)[..j] == head && (head + tail)[j..] == tail;
      assert d + Pass(sequence, u, noteq, tail) == Pass(sequence, u, noteq, tail);
    } else {
      OneRule(sequence, u, noteq, row[j]);
      assert d == [d[0]] && row[j := d[0]][..j + 1] == head + d && row[j := d[0]][j + 1..] == tail;
      assert head + (d + Pass(sequence, u, noteq, tail)) == (head + d) + Pass(sequence, u, noteq, tail);
    }
  }

  lemma OneRule(sequence: seq<nat>, u: nat, noteq: set<nat>, r: Rule)
    ensures |PassRule(sequence, u, noteq, r)| <= 1
  {
  }

  lemma ProgressEnds(sequence: seq<nat>, u: nat, noteq: set<nat>, row0: seq<Rule>, row: seq<Rule>)
    ensures Progress(sequence, u, noteq, row0, row0, 0)
    ensures Progress(sequence, u, noteq, row0, row, |row|) ==> row == Pass(sequence, u, noteq, row0)
  {
    assert row0[..0] == [] && row0[0..] == row0;
    assert row[..|row|] == row && row[|row|..] == [];
  }

  /** The rules of one position, filtered and spliced in place. */
  method PruneRow(sequence: seq<nat>, u: nat, noteq: set<nat>, row0: seq<Rule>) returns (row: seq<Rule>)
    ensures row == Pass(sequence, u, noteq, row0)
  {
    row := row0;
    var j := 0;
    ProgressEnds(sequence, u, noteq, row0, row);
    hide Progress, Pass, Minus, Lower;
    while j < |row|
      invariant j <= |row| && Progress(sequence, u, noteq, row0, row, j)
      decreases |row| - j
    {
      ProgressStep(sequence, u, noteq, row0, row, j);
      var r := row[j];
      assert row[j := r] == row;
      if r.Differ? && Lower(sequence, u, r.level) {
        var os := Minus(r.others, noteq);
        if os == [] {
          row := row[..j] + row[j + 1..];
        } else {
          row, j := row[j := Differ(r.level, os)], j + 1;
        }
      } else {
        j := j + 1;
      }
    }
    ProgressEnds(sequence, u, noteq, row0, row);
  }

  ghost predicate PrunedUpto(index: seq<Index>, sequence: seq<nat>, upto: nat, full: seq<seq<Rule>>,
          rules: seq<seq<Rule>>) {
    |rules| == |full| && forall i :: 0 <= i < |full| ==> rules[i] == RowAfter(index, sequence, upto, i, full[i])
  }

  method PruneLevel(index: seq<Index>, sequence: seq<nat>, u: nat, rules0: seq<seq<Rule>>, ghost full: seq<seq<Rule>>)
      returns (rules: seq<seq<Rule>>)
    requires u < |sequence| && PrunedUpto(index, sequence, u, full, rules0)
    ensures PrunedUpto(index, sequence, u + 1, full, rules)
  {
    rules := rules0;
    hide RowAfter;
    for i := 0 to |rules0|
      invariant |rules| == |rules0| && forall h :: i <= h < |rules| ==> rules[h] == rules0[h]
      invariant forall h :: 0 <= h < i ==> rules[h] == RowAfter(index, sequence, u + 1, h, full[h])
    {
      var noteq := NoteqOf(Symbols(index, sequence[u]), i);
      var row := PruneRow(sequence, u, noteq, rules[i]);
      RowNext(index, sequence, u, i, full[i], noteq);
      rules := rules[i := row];
    }
  }

  /** `parse_level_indexes`: from the rules of position `i` exactly those other positions are left out
      that a higher level of the sequence tells from `i`, and rules that are left without any. */
  method ParseLevelIndexes(index: seq<Index>, sequence: seq<nat>) returns (rules: seq<seq<Rule>>)
    requires Distinct(index)
    requires forall u :: 0 <= u < |sequence| - 1 ==> exists k :: 0 <= k < |index| && index[k].level == sequence[u]
    ensures Pruned(index, sequence, rules)
  {
    rules := CompileRules(index);
    ghost var full: seq<seq<Rule>> := rules;
    forall i | 0 <= i < |full| ensures RowAfter(index, sequence, 0, i, full[i]) == full[i] {
      forall r | r in full[i] && r.Differ? ensures r.others != [] { RulesLookBack(index, i, r); }
      RowStart(index, sequence, i, full[i]);
    }
    hide RowAfter, Full;
    for u := 0 to if sequence == [] then 0 else |sequence| - 1
      invariant PrunedUpto(index, sequence, u, full, rules)
    {
      rules := PruneLevel(index, sequence, u, rules, full);
    }
    assert Pruned(index, sequence, rules) by { PrunedFromFull(index, sequence, full, rules); }
  }

  /** The rules after all levels of the sequence but the last. */
  ghost predicate Pruned(index: seq<Index>, sequence: seq<nat>, rules: seq<seq<Rule>>) {
    var m := if sequence == [] then 0 else |sequence| - 1;
    |rules| == Width(index) && forall i :: 0 <= i < |rules| ==>
      rules[i] == RowAfter(index, sequence, m, i, RulesAt(index, i))
  }

  lemma PrunedFromFull(index: seq<Index>, sequence: seq<nat>, full: seq<seq<Rule>>, rules: seq<seq<Rule>>)
    requires Full(index, full)
    ensures Pruned(index, sequence, rules) <==> PrunedUpto(index, sequence, if sequence == [] then 0
        else |sequence| - 1, full, rules)
  {
    hide RowAfter, RulesAt;
  }

  // ----- what pruning means

  lemma {:induction false} InRowAfter(index: seq<Index>, sequence: seq<nat>, upto: nat, i: nat, row: seq<Rule>, r: Rule,
          r': Rule)
    requires r in row && r' in RuleAfter(index, sequence, upto, i, r)
    ensures r' in RowAfter(index, sequence, upto, i, row)
  {
    hide RuleAfter;
    if row[0] != r { InRowAfter(index, sequence, upto, i, row[1..], r, r'); }
  }

  lemma {:induction false} FromRowAfter(index: seq<Index>, sequence: seq<nat>, upto: nat, i: nat, row: seq<Rule>,
          r': Rule)
    requires r' in RowAfter(index, sequence, upto, i, row)
    ensures exists r :: r in row && r' in RuleAfter(index, sequence, upto, i, r)
  {
    hide RuleAfter;
    if r' !in RuleAfter(index, sequence, upto, i, row[0]) {
      FromRowAfter(index, sequence, upto, i, row[1..], r');
      var r :| r in row[1..] && r' in RuleAfter(index, sequence, upto, i, r);
      assert r in row;
    } else {
      assert row[0] in row;
    }
  }

  /** Positions with the same lower node have the same upper node. */
  ghost predicate Nested(a: Choice, sequence: seq<nat>) {
    forall u, p, i, j ::
      0 <= u < p < |sequence| && 0 <= i < |a| && 0 <= j < |a| && Has(a, sequence[u]) && Has(a, sequence[p]) ==>
      (a[i][sequence[p]] == a[j][sequence[p]] ==> a[i][sequence[u]] == a[j][sequence[u]])
  }

  ghost predicate NoRepeat(sequence: seq<nat>) { forall u, p :: 0 <= u < p < |sequence| ==> sequence[u] != sequence[p] }

  /** What callers have checked: one index per level, a symbol for every position, and an index for
      every level of the sequence but the last. An upper index with fewer symbols would tell positions
      apart that it says nothing about; unequal lengths are refused (mon/pool_config.js:131-136). */
  ghost predicate Checked(index: seq<Index>, sequence: seq<nat>, n: nat) {
    && Distinct(index) && NoRepeat(sequence) && (forall k :: 0 <= k < |index| ==> |index[k].symbols| == n)
    && forall u :: 0 <= u < |sequence| - 1 ==> exists k :: 0 <= k < |index| && index[k].level == sequence[u]
  }

  /** A pruned position differs because a higher level, which is respected, tells it apart. */
  lemma ExcusedDiffers(a: Choice, index: seq<Index>, sequence: seq<nat>, u: nat, l: nat, i: nat, o: nat, k: nat)
    requires Checked(index, sequence, |a|) && AllHave(a, index) && Nested(a, sequence) && Has(a, l) && i < |a|
    requires 1 <= o <= |a|
    requires u < |sequence| && Lower(sequence, u, l) && Unlike(Symbols(index, sequence[u]), i, o)
    requires k < |index| && index[k].level == sequence[u] && Respects(a, index[k])
    ensures a[o - 1][l] != a[i][l]
  {
    SymbolsOf(index, k);
    var p :| u < p < |sequence| && sequence[p] == l;
    assert a[o - 1][sequence[u]] != a[i][sequence[u]];
  }

  lemma OnlyBelow(sequence: seq<nat>, u: nat, v: nat)
    requires NoRepeat(sequence) && u < |sequence| && Lower(sequence, v, sequence[u])
    ensures v < u
  {
  }

  /** A choice that the pruned rules accept respects each level, by those above it. */
  lemma {:induction false} PrunedRespects(a: Choice, index: seq<Index>, sequence: seq<nat>, full: seq<seq<Rule>>,
          rules: seq<seq<Rule>>, k: nat, p: nat)
    requires Checked(index, sequence, |a|) && AllHave(a, index) && Nested(a, sequence)
    requires Full(index, full) && Pruned(index, sequence, rules) && |a| == |rules| && Accepts(a, rules)
    requires k < |index| && forall u: nat :: Lower(sequence, u, index[k].level) ==> u < p
    ensures Respects(a, index[k])
    decreases p
  {
    var x, m := index[k], if sequence == [] then 0 else |sequence| - 1;
    PrunedFromFull(index, sequence, full, rules);
    hide Pruned;
    hide Symbols, Unlike, Respects, Nested, RowAfter, Full, Firsts, First;
    forall i, r | 0 <= i < |a| && r in RuleAt(x, i) ensures Holds(a, i, r) {
      InFull(index, full, i, k, r);
      if r.Same? {
        InRowAfter(index, sequence, m, i, full[i], r, r);
      } else {
        assert r.level == x.level by { RuleLevel(x, i, r); }
        forall o | o in r.others && 1 <= o <= |a| ensures a[o - 1][x.level] != a[i][x.level] {
          if Excused(index, sequence, m, x.level, i, o) {
            var u: nat :|
              u < m && u < |sequence| && Lower(sequence, u, x.level) && Unlike(Symbols(index, sequence[u]), i, o);
            var h: nat :| h < |index| && index[h].level == sequence[u];
            forall v: nat | Lower(sequence, v, index[h].level) ensures v < u { OnlyBelow(sequence, u, v); }
            PrunedRespects(a, index, sequence, full, rules, h, u);
            ExcusedDiffers(a, index, sequence, u, x.level, i, o, h);
          } else {
            KeptDiffers(a, index, sequence, m, i, full[i], r, o);
          }
        }
      }
    }
    assert LevelHolds(a, x) by { hide Holds, RuleAt; }
    LevelMeans(a, x);
  }

  lemma RuleLevel(x: Index, i: nat, r: Rule)
    requires r in RuleAt(x, i)
    ensures r.level == x.level
  {
  }

  lemma InFull(index: seq<Index>, full: seq<seq<Rule>>, i: nat, k: nat, r: Rule)
    requires Full(index, full) && k < |index| && i < |full| && r in RuleAt(index[k], i)
    ensures r in full[i]
  {
    hide RuleAt;
    InRulesAt(index, i, r);
  }

  lemma KeptDiffers(a: Choice, index: seq<Index>, sequence: seq<nat>, m: nat, i: nat, row: seq<Rule>, r: Rule, o: nat)
    requires i < |a| && 1 <= o <= |a| && r in row && r.Differ? && o in r.others && Has(a, r.level)
    requires !Excused(index, sequence, m, r.level, i, o) && RowHolds(a, i, RowAfter(index, sequence, m, i, row))
    ensures a[o - 1][r.level] != a[i][r.level]
  {
    hide Excused, RowAfter;
    var k := Kept(index, sequence, m, r.level, i, r.others);
    assert o in k;
    InRowAfter(index, sequence, m, i, row, r, Differ(r.level, k));
    assert Holds(a, i, Differ(r.level, k));
  }

  lemma Weaker(a: Choice, index: seq<Index>, sequence: seq<nat>, m: nat, i: nat, r: Rule, r': Rule)
    requires i < |a| && r' in RuleAfter(index, sequence, m, i, r) && Holds(a, i, r)
    ensures Holds(a, i, r')
  {
    hide Excused;
  }

  /** Pruning keeps the meaning: on every nested choice the pruned rules accept what the full ones do. */
  lemma PruningKeepsMeaning(a: Choice, index: seq<Index>, sequence: seq<nat>, full: seq<seq<Rule>>,
          rules: seq<seq<Rule>>)
    requires Checked(index, sequence, |a|) && AllHave(a, index) && Nested(a, sequence)
    requires Full(index, full) && Pruned(index, sequence, rules) && |a| == |rules|
    ensures Accepts(a, rules) <==> Accepts(a, full)
  {
    var m := if sequence == [] then 0 else |sequence| - 1;
    PrunedFromFull(index, sequence, full, rules);
    if Accepts(a, full) {
      forall i, r' | 0 <= i < |rules| && r' in rules[i] ensures Holds(a, i, r') {
        hide Holds, RowAfter, RuleAfter, Nested, Checked, Full;
        FromRowAfter(index, sequence, m, i, full[i], r');
        var r :| r in full[i] && r' in RuleAfter(index, sequence, m, i, r);
        Weaker(a, index, sequence, m, i, r, r');
      }
    }
    if Accepts(a, rules) {
      forall k | 0 <= k < |index| ensures Respects(a, index[k]) {
        hide Accepts, Respects, Nested, Checked, Pruned;
        PrunedRespects(a, index, sequence, full, rules, k, |sequence|);
      }
      RulesMean(a, index, full);
    }
  }
}
