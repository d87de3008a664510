/** A finite set of integers in ascending order. */
module Ascending {

  function Minimum(s: set<int>): (m: int)
    requires s != {}
    ensures m in s && forall x | x in s :: m <= x
  {
    MinimumExists(s);
    var m :| m in s && forall x | x in s :: m <= x;
    m
  }

  lemma Inhabited(s: set<int>)
    ensures s == {} || exists x :: x in s
  {
    if !exists x :: x in s {
      assert s == {};
    }
  }

  lemma MinimumExists(s: set<int>)
    requires s != {}
    ensures exists m | m in s :: forall x | x in s :: m <= x
  {
    Inhabited(s);
    var x :| x in s;
    MinimumBelow(s, x);
  }

  lemma {:induction false} MinimumBelow(s: set<int>, x: int)
    requires x in s
    ensures exists m | m in s :: forall y | y in s :: m <= y
  {
    if y :| y in s && y < x {
      var others := s - {x};
      MinimumBelow(others, y);
      var m :| m in others && forall z | z in others :: m <= z;
      forall z | z in s
        ensures m <= z
      {
        assert z == x || z in others;
      }
    }
  }

  function Sorted(s: set<int>): (r: seq<int>)
    ensures forall x :: x in r <==> x in s
    ensures forall i, j | 0 <= i < j < |r| :: r[i] < r[j]
  {
    if s == {} then []
    else
      var m := Minimum(s);
      [m] + Sorted(s - {m})
  }
}
