/** Small definitions that are shared by many modules. */
module Basics {
  datatype Option<+T> = None | Some(value: T)

  function Last<T>(s: seq<T>): T
    requires s != []
  {
    s[|s| - 1]
  }

  function Front<T>(s: seq<T>): seq<T>
    requires s != []
  {
    s[..|s| - 1]
  }

  function One(b: bool): nat { if b then 1 else 0 }

  ghost predicate IsLeast(s: set<nat>, m: nat) { m in s && forall x :: x in s ==> m <= x }

  /** Object keys are visited in increasing order. */
  function Least(s: set<nat>): (m: nat)
    requires s != {}
    ensures IsLeast(s, m)
  {
    assert exists m: nat :: m in s && forall x :: x in s ==>
      m <= x by { var m := LeastExists(s); assert IsLeast(s, m); }
    var m: nat :| m in s && forall x :: x in s ==> m <= x;
    m
  }

  lemma {:induction false} LeastExists(s: set<nat>) returns (m: nat)
    requires s != {}
    ensures IsLeast(s, m)
    decreases |s|
  {
    var y :| y in s;
    if s == {y} { return y; }
    assert s - {y} == {} ==> s == {y};
    var k := LeastExists(s - {y});
    m := if k < y then k else y;
    forall x | x in s ensures m <= x { if x != y { assert x in s - {y}; } }
  }
}
