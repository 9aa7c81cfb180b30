/** Finite sets of numbers listed in increasing order: what a sort by key delivers. */
module Ordered {

  predicate Increasing(s: seq<nat>) {
    forall i, j :: 0 <= i < j < |s| ==> s[i] < s[j]
  }

  lemma IncreasingSnoc(s: seq<nat>, x: nat)
    requires Increasing(s) && forall y :: y in s ==> y < x
    ensures Increasing(s + [x])
  {
    var r := s + [x];
    forall i, j | 0 <= i < j < |r| ensures r[i] < r[j] {
      assert r[i] == s[i] && s[i] in s;
    }
  }

  lemma {:induction false} FindLeast(s: set<nat>) returns (m: nat)
    requires s != {}
    ensures m in s && forall x :: x in s ==> m <= x
    decreases |s|
  {
    m :| m in s;
    var rest := s - {m};
    if rest != {} {
      var r := FindLeast(rest);
      forall x | x in s ensures (if r < m then r else m) <= x {
        assert x == m || x in rest;
      }
      m := if r < m then r else m;
    } else {
      forall x | x in s ensures m <= x {
        assert x == m || x in rest;
      }
    }
  }

  lemma LeastExists(s: set<nat>)
    requires s != {}
    ensures exists m :: m in s && forall x :: x in s ==> m <= x
  {
    var m := FindLeast(s);
  }

  function Least(s: set<nat>): (m: nat)
    requires s != {}
    ensures m in s && forall x :: x in s ==> m <= x
  {
    LeastExists(s);
    var m :| m in s && forall x :: x in s ==> m <= x;
    m
  }

  /** The elements of `s` in increasing order. */
  function Sorted(s: set<nat>): (r: seq<nat>)
    ensures Increasing(r)
    ensures |r| == |s|
    ensures forall x :: x in r <==> x in s
    decreases |s|
  {
    if s == {} then []
    else
      var m := Least(s);
      [m] + Sorted(s - {m})
  }

  /** There is only one increasing listing of a set. */
  lemma {:induction false} SortedUnique(r: seq<nat>, s: set<nat>)
    requires Increasing(r) && forall x :: x in r <==> x in s
    ensures r == Sorted(s)
    decreases |s|
  {
    if |r| == 0 {
      assert s == {};
    } else {
      assert r[0] in s;
      var m := Least(s);
      assert m in r;
      var k :| 0 <= k < |r| && r[k] == m;
      assert k == 0;
      assert r == [m] + r[1..];
      forall x ensures x in r[1..] <==> x in s - {m} {
        if x in s - {m} {
          var i :| 0 <= i < |r| && r[i] == x;
          assert r[1..][i - 1] == x;
        }
      }
      SortedUnique(r[1..], s - {m});
    }
  }

  lemma SortedAppendLast(s: set<nat>, x: nat)
    requires forall y :: y in s ==> y < x
    ensures Sorted(s + {x}) == Sorted(s) + [x]
  {
    var r := Sorted(s) + [x];
    forall y ensures y in r <==> y in s + {x} {
      assert y in r <==> y in Sorted(s) || y == x;
    }
    IncreasingSnoc(Sorted(s), x);
    SortedUnique(r, s + {x});
  }

  /** A new key goes to the end exactly if it is above all the others. */
  lemma SortedAppend(s: set<nat>, x: nat)
    requires x !in s
    ensures Sorted(s + {x}) == Sorted(s) + [x] <==> forall y :: y in s ==> y < x
  {
    if forall y :: y in s ==> y < x {
      SortedAppendLast(s, x);
    } else {
      var y :| y in s && y >= x;
      assert y in Sorted(s);
      var i :| 0 <= i < |Sorted(s)| && Sorted(s)[i] == y;
      var r := Sorted(s) + [x];
      assert r[i] == y && r[|Sorted(s)|] == x;
      assert !Increasing(r);
    }
  }

  /** A random identifier can always be fresh. */
  lemma FreshExists(keys: set<nat>)
    ensures exists k: nat :: k !in keys
  {
    if keys == {} {
      assert 0 !in keys;
    } else {
      var sorted := Sorted(keys);
      var top := sorted[|sorted| - 1];
      forall x | x in keys ensures x <= top {
        assert x in sorted;
      }
      assert top + 1 !in keys;
    }
  }

  /** The numbers below `n`. */
  function Upto(n: nat): (r: set<nat>)
    ensures |r| == n && forall i: nat :: i in r <==> i < n
  {
    if n == 0 then {} else Upto(n - 1) + {n - 1}
  }

  function Counting(n: nat): (r: seq<nat>)
    ensures |r| == n && forall i :: 0 <= i < n ==> r[i] == i
  {
    if n == 0 then [] else Counting(n - 1) + [n - 1]
  }

  /** An increasing listing of the numbers below `n` counts. */
  lemma CountingUnique(r: seq<nat>, n: nat)
    requires Increasing(r) && forall k :: k in r <==> k in Upto(n)
    ensures r == Counting(n)
  {
    var c := Counting(n);
    forall k: nat ensures k in c <==> k in Upto(n) {
      if k < n {
        assert c[k] == k;
      }
    }
    SortedUnique(r, Upto(n));
    SortedUnique(c, Upto(n));
  }
}
