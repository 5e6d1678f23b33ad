/** In which order operations learn that their journal sectors are written. */
module JournalOrder {
  import opened Basics

  /** An operation waits for sector write number `id`; `pending` as long as that is not reported. */
  datatype Flight = Flight(id: nat, op: nat, pending: bool)

  predicate Sorted(s: seq<Flight>) { forall i, j :: 0 <= i < j < |s| ==> s[i].id <= s[j].id }

  /** The number of flights with a smaller number. */
  function LowerBound(s: seq<Flight>, id: nat): (k: nat)
    ensures k <= |s| && (forall i :: 0 <= i < k ==> s[i].id < id) && (k < |s| ==> s[k].id >= id)
    decreases |s|
  {
    if s == [] || s[0].id >= id then 0 else 1 + LowerBound(s[1..], id)
  }

  /** Whether the operation of a flight from the lower bound on is told now. */
  predicate Told(f: Flight, id: nat, first: bool) { if f.id == id then first else !f.pending }

  function Landed(f: Flight, id: nat): Flight { if f.id == id then f.(pending := false) else f }

  function Left(s: seq<Flight>, id: nat, first: bool): seq<Flight> {
    if s == [] then []
    else Left(Front(s), id, first) + if Told(Last(s), id, first) then [] else [Landed(Last(s), id)]
  }

  function Gone(s: seq<Flight>, id: nat, first: bool): seq<Flight> {
    if s == [] then [] else Gone(Front(s), id, first) + if Told(Last(s), id, first) then [Last(s)] else []
  }

  // ----- what every report keeps

  /** Flights of one write are reported together. */
  ghost predicate Agree(s: seq<Flight>) { forall f, g :: f in s && g in s && f.id == g.id ==> f.pending == g.pending }

  /** Nobody waits without reason: the first flight is not reported yet. */
  predicate FirstPending(s: seq<Flight>) { s != [] ==> s[0].pending }

  lemma {:induction false} LeftMember(s: seq<Flight>, id: nat, first: bool, f: Flight)
    requires f in Left(s, id, first)
    ensures exists g :: g in s && !Told(g, id, first) && f == Landed(g, id)
    decreases |s|
  {
    if f in Left(Front(s), id, first) {
      LeftMember(Front(s), id, first, f);
    } else {
      assert Last(s) in s;
    }
  }

  lemma {:induction false} LeftSorted(p: seq<Flight>, s: seq<Flight>, id: nat, first: bool)
    requires Sorted(p + s)
    ensures Sorted(p + Left(s, id, first))
    decreases |s|
  {
    if s != [] {
      var r, r' := Left(Front(s), id, first), Left(s, id, first);
      assert forall i :: 0 <= i < |p + Front(s)| ==> (p + Front(s))[i] == (p + s)[i];
      LeftSorted(p, Front(s), id, first);
      forall i | 0 <= i < |p + r| ensures (p + r)[i].id <= Last(s).id {
        if i < |p| {
          assert (p + s)[i] == p[i] && (p + s)[|p + s| - 1] == Last(s);
        } else {
          assert (p + r)[i] in r;
          LeftMember(Front(s), id, first, (p + r)[i]);
          var g :| g in Front(s) && !Told(g, id, first) && (p + r)[i] == Landed(g, id);
          var h :| 0 <= h < |Front(s)| && Front(s)[h] == g;
          assert (p + s)[|p| + h] == g && (p + s)[|p + s| - 1] == Last(s);
        }
      }
      SortedSnoc(p + r, Landed(Last(s), id));
      assert p + r' == if Told(Last(s), id, first) then p + r else (p + r) + [Landed(Last(s), id)];
    }
  }

  lemma SortedSnoc(s: seq<Flight>, f: Flight)
    requires Sorted(s) && forall i :: 0 <= i < |s| ==> s[i].id <= f.id
    ensures Sorted(s + [f])
  {
  }

  /** What is left after a report, all in all. */
  function After(s: seq<Flight>, id: nat): seq<Flight> {
    var k := LowerBound(s, id);
    s[..k] + Left(s[k..], id, k == 0)
  }

  lemma AfterMember(s: seq<Flight>, id: nat, f: Flight)
    requires f in After(s, id)
    ensures exists g :: g in s && f == Landed(g, id) && (LowerBound(s, id) == 0 ==> !Told(g, id, true))
  {
    var k := LowerBound(s, id);
    if f in s[..k] {
      assert f in s && f == Landed(f, id);
    } else {
      LeftMember(s[k..], id, k == 0, f);
      var g :| g in s[k..] && !Told(g, id, k == 0) && f == Landed(g, id);
      assert g in s;
    }
  }

  lemma AfterKeeps(s: seq<Flight>, id: nat)
    requires Sorted(s) && Agree(s) && FirstPending(s)
    ensures Sorted(After(s, id)) && Agree(After(s, id)) && FirstPending(After(s, id))
  {
    hide Left, After, LowerBound;
    var k, r := LowerBound(s, id), After(s, id);
    assert r == s[..k] + Left(s[k..], id, k == 0) by { AfterIs(s, id); }
    assert s[..k] + s[k..] == s;
    LeftSorted(s[..k], s[k..], id, k == 0);
    forall f, g | f in r && g in r && f.id == g.id ensures f.pending == g.pending {
      AfterMember(s, id, f);
      AfterMember(s, id, g);
    }
    if r != [] && k == 0 { AfterMember(s, id, r[0]); }
  }

  lemma AfterIs(s: seq<Flight>, id: nat)
    ensures var k := LowerBound(s, id); After(s, id) == s[..k] + Left(s[k..], id, k == 0)
  {
  }

  /** The loop of `handle_journal_write` when it has passed `n` of the flights and is at position `i`. */
  ghost predicate Handling(s: seq<Flight>, id: nat, k: nat, first: bool, n: nat, ops: seq<Flight>, i: nat,
                           told: seq<Flight>) {
    && k <= n <= |s| && i == k + |Left(s[k..n], id, first)|
    && ops == s[..k] + Left(s[k..n], id, first) + s[n..] && told == Gone(s[k..n], id, first)
  }

  lemma HandlingStart(s: seq<Flight>, id: nat, k: nat)
    requires k <= |s|
    ensures Handling(s, id, k, k == 0, k, s, k, [])
  {
    assert s[k..k] == [] && s[..k] + s[k..] == s;
  }

  lemma HandlingStep(s: seq<Flight>, id: nat, k: nat, first: bool, n: nat, ops: seq<Flight>, i: nat, told: seq<Flight>)
    requires Handling(s, id, k, first, n, ops, i, told) && i < |ops|
    ensures n < |s| && ops[i] == s[n]
    ensures if Told(s[n], id, first) then
              Handling(s, id, k, first, n + 1, ops[..i] + ops[i + 1..], i, told + [s[n]])
            else Handling(s, id, k, first, n + 1, ops[i := Landed(s[n], id)], i + 1, told)
  {
    hide Left, Gone, Told, Landed;
    var left := s[..k] + Left(s[k..n], id, first);
    assert n < |s| && s[n..] == [s[n]] + s[n + 1..];
    LeftSnoc(s, id, k, first, n);
    Splice(left, s[n], s[n + 1..], Landed(s[n], id));
    assert s[..k] + (Left(s[k..n], id, first) + [Landed(s[n], id)]) == left + [Landed(s[n], id)];
  }

  lemma Splice(l: seq<Flight>, a: Flight, r: seq<Flight>, b: Flight)
    ensures var s := l + ([a] + r);
            && s[|l|] == a && s[..|l|] + s[|l| + 1..] == l + r && s[|l| := b] == l + [b] + r
  {
  }

  lemma LeftSnoc(s: seq<Flight>, id: nat, k: nat, first: bool, n: nat)
    requires k <= n <= |s|
    ensures n < |s| ==>
              && Left(s[k..n + 1], id, first)
                 == Left(s[k..n], id, first) + (if Told(s[n], id, first) then [] else [Landed(s[n], id)])
              && Gone(s[k..n + 1], id, first) == Gone(s[k..n], id, first) + if Told(s[n], id, first) then [s[n]] else []
  {
    if n < |s| { assert Front(s[k..n + 1]) == s[k..n] && Last(s[k..n + 1]) == s[n]; }
  }

  lemma HandlingEnd(s: seq<Flight>, id: nat, k: nat, first: bool, n: nat, ops: seq<Flight>, i: nat, told: seq<Flight>)
    requires Handling(s, id, k, first, n, ops, i, told) && i >= |ops| && k == LowerBound(s, id) && (first <==> k == 0)
    ensures ops == After(s, id) && told == Gone(s[k..], id, first)
  {
    hide Left, Gone;
    assert s[k..n] == s[k..] && s[n..] == [];
  }

  // ----- told in order

  /** A report of write `id` tells the operation of flight `j`. */
  predicate Tells(s: seq<Flight>, id: nat, j: nat) {
    var k := LowerBound(s, id);
    k <= j < |s| && Told(s[j], id, k == 0)
  }

  /** An operation is told although an earlier write is not reported. */
  ghost predicate TooEarly(s: seq<Flight>, id: nat) {
    exists i: nat, j: nat :: Tells(s, id, j) && Before(s, id, i, j)
  }

  predicate Before(s: seq<Flight>, id: nat, i: nat, j: nat) {
    i < j < |s| && s[i].id < s[j].id && s[i].pending && s[i].id != id
  }

  /** It is told too early exactly if it is behind write `id` and was reported before, and a write
      before it still is not. */
  lemma TooEarlyIff(s: seq<Flight>, id: nat)
    requires Sorted(s) && Agree(s)
    ensures TooEarly(s, id) <==> exists i: nat, j: nat :: Behind(s, id, i, j)
  {
    if TooEarly(s, id) {
      var i: nat, j: nat :| Tells(s, id, j) && Before(s, id, i, j);
      assert Behind(s, id, i, j);
    }
    if i: nat, j: nat :| Behind(s, id, i, j) {
      assert s[i] in s && s[j] in s;
      assert Tells(s, id, j) && Before(s, id, i, j);
    }
  }

  predicate Behind(s: seq<Flight>, id: nat, i: nat, j: nat) {
    i < j < |s| && s[j].id > id && !s[j].pending && s[i].pending && s[i].id != id
  }

  class FlushQueue {
    /** `flushing_ops`, in the order of the sector writes. */
    var ops: seq<Flight>

    ghost predicate Valid()
      reads this
    {
      Sorted(ops) && Agree(ops) && FirstPending(ops)
    }

    constructor ()
      ensures Valid() && ops == []
    {
      ops := [];
    }

    /** `prepare_journal_sector_write`: the operation waits for the newest write or for the one before it. */
    method Await(id: nat, op: nat)
      requires Valid() && (ops == [] || Last(ops).id < id || Last(ops) == Flight(id, Last(ops).op, true))
      modifies this
      ensures Valid() && ops == old(ops) + [Flight(id, op, true)]
    {
      ops := ops + [Flight(id, op, true)];
    }

    /** `handle_journal_write`: the disk reports sector write `id`. The flights of this write are told if there is none
        before them, and behind them all that are reported. */
    method HandleWrite(id: nat) returns (told: seq<Flight>)
      requires Valid()
      modifies this
      ensures Valid() && ops == After(old(ops), id)
      ensures var k := LowerBound(old(ops), id);
              told == Gone(old(ops)[k..], id, k == 0)
    {
      hide Left, Gone, After, Sorted, Agree, Handling, LowerBound, FirstPending;
      ghost var s, k := ops, LowerBound(ops, id);
      var i := 0;
      while i < |ops| && ops[i].id < id
        invariant i <= |ops| && forall h :: 0 <= h < i ==> ops[h].id < id
      {
        i := i + 1;
      }
      assert i == k;
      var first := i == 0;
      told := [];
      ghost var n: nat := k;
      HandlingStart(s, id, k);
      while i < |ops|
        invariant n <= |s| && Handling(s, id, k, first, n, ops, i, told)
        decreases |s| - n
      {
        HandlingStep(s, id, k, first, n, ops, i, told);
        var flight := ops[i];
        ghost var was := ops;
        var del := if flight.id == id then first else !flight.pending;
        if flight.id == id {
          ops := ops[i := flight.(pending := false)];
        }
        if del {
          told := told + [flight];
          ops := ops[..i] + ops[i + 1..];
          assert ops == was[..i] + was[i + 1..];
        } else {
          assert ops == was[i := Landed(flight, id)];
          i := i + 1;
        }
        n := n + 1;
      }
      HandlingEnd(s, id, k, first, n, ops, i, told);
      AfterKeeps(s, id);
    }
  }
}
