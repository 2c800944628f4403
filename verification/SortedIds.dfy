/** Python's `sorted` on a set of ids. */
module SortedIds {
  lemma HasLeast(s: set<int>)
    requires s != {}
    ensures exists m :: m in s && forall x :: x in s ==> m <= x
  {
    assert (forall y :: y !in s) ==> s == {};
    var y :| y in s;
    if forall x :: x in s ==> y <= x {
      assert y in s;
    } else {
      var lower := set x | x in s && x < y;
      var z :| z in s && z < y;
      assert z in lower && y !in lower && lower <= s;
      HasLeast(lower);
      var m :| m in lower && forall x :: x in lower ==> m <= x;
      forall x | x in s
        ensures m <= x
      {
        assert x < y ==> x in lower;
      }
      assert m in s;
    }
  }

  function Least(s: set<int>): (m: int)
    requires s != {}
    ensures m in s && forall x :: x in s ==> m <= x
  {
    HasLeast(s);
    var m :| m in s && forall x :: x in s ==> m <= x;
    m
  }

  /** Python's `sorted` of a set. */
  function Sorted(s: set<int>): (r: seq<int>)
    ensures forall x :: x in r <==> x in s
    ensures forall i, j :: 0 <= i < j < |r| ==> r[i] < r[j]
  {
    if s == {} then [] else [Least(s)] + Sorted(s - {Least(s)})
  }
}
