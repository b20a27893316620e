/** Sums over finite sets of keys. */
module SetSums {

  ghost function SumOver(s: set<nat>, f: nat -> int): int {
    if s == {} then 0 else var x :| x in s; f(x) + SumOver(s - {x}, f)
  }

  lemma {:induction false} SumOverTake(s: set<nat>, x: nat, f: nat -> int)
    requires x in s
    ensures SumOver(s, f) == f(x) + SumOver(s - {x}, f)
    decreases s
  {
    var y :| y in s && SumOver(s, f) == f(y) + SumOver(s - {y}, f);
    if y != x {
      SumOverTake(s - {y}, x, f);
      SumOverTake(s - {x}, y, f);
      assert s - {y} - {x} == s - {x} - {y};
    }
  }

  lemma SumOverAdd(s: set<nat>, x: nat, f: nat -> int)
    requires x !in s
    ensures SumOver(s + {x}, f) == SumOver(s, f) + f(x)
  {
    SumOverTake(s + {x}, x, f);
    assert s + {x} - {x} == s;
  }

  lemma {:induction false} SumOverSame(s: set<nat>, f: nat -> int, g: nat -> int)
    requires forall x :: x in s ==> f(x) == g(x)
    ensures SumOver(s, f) == SumOver(s, g)
    decreases s
  {
    if s != {} {
      var x :| x in s;
      SumOverTake(s, x, f);
      SumOverTake(s, x, g);
      SumOverSame(s - {x}, f, g);
    }
  }

  lemma {:induction false} SumOverBounds(s: set<nat>, f: nat -> int, g: nat -> int)
    requires forall x :: x in s ==> f(x) <= g(x)
    ensures SumOver(s, f) <= SumOver(s, g)
    decreases s
  {
    if s != {} {
      var x :| x in s;
      SumOverTake(s, x, f);
      SumOverTake(s, x, g);
      SumOverBounds(s - {x}, f, g);
    }
  }

  /** A sum over distinct listed keys taken out of a set. */
  function SumListed(ids: seq<nat>, f: nat -> int): int {
    if ids == [] then 0 else f(ids[0]) + SumListed(ids[1..], f)
  }

  lemma {:induction false} SumListedSame(ids: seq<nat>, f: nat -> int, g: nat -> int)
    requires forall x :: x in ids ==> f(x) == g(x)
    ensures SumListed(ids, f) == SumListed(ids, g)
    decreases |ids|
  {
    if ids != [] { SumListedSame(ids[1..], f, g); }
  }

  ghost function Without(s: set<nat>, ids: seq<nat>): set<nat> {
    set x | x in s && x !in ids
  }

  lemma {:induction false} SumOverWithout(s: set<nat>, ids: seq<nat>, f: nat -> int)
    requires forall x :: x in ids ==> x in s
    requires forall j, k :: 0 <= j < k < |ids| ==> ids[j] != ids[k]
    ensures SumOver(s, f) == SumListed(ids, f) + SumOver(Without(s, ids), f)
    decreases |ids|
  {
    if ids == [] {
      assert Without(s, ids) == s;
    } else {
      SumOverTake(s, ids[0], f);
      forall x | x in ids[1..] ensures x in s - {ids[0]} {
        var j :| 0 <= j < |ids[1..]| && ids[1..][j] == x;
        assert ids[j + 1] == x;
      }
      SumOverWithout(s - {ids[0]}, ids[1..], f);
      assert ids == [ids[0]] + ids[1..];
      assert Without(s - {ids[0]}, ids[1..]) == Without(s, ids);
    }
  }
}
