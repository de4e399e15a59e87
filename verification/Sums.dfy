/** Sums of a weight over the elements of a sequence.
    The concurrent models count threads by state with 0/1 weights and bound runs with larger weights. */
module Sums {

  function Sum<T>(s: seq<T>, f: T -> int): int {
    if s == [] then 0 else f(s[0]) + Sum(s[1..], f)
  }

  function Identity(n: int): int { n }

  lemma {:induction false} SumUpdate<T>(s: seq<T>, i: nat, v: T, f: T -> int)
    requires i < |s|
    ensures Sum(s[i := v], f) == Sum(s, f) - f(s[i]) + f(v)
  {
    if i == 0 {
      assert s[i := v][1..] == s[1..];
    } else {
      SumUpdate(s[1..], i - 1, v, f);
      assert s[i := v][1..] == s[1..][i - 1 := v];
    }
  }

  lemma {:induction false} SumConcat<T>(s: seq<T>, t: seq<T>, f: T -> int)
    ensures Sum(s + t, f) == Sum(s, f) + Sum(t, f)
  {
    if s == [] {
      assert s + t == t;
    } else {
      SumConcat(s[1..], t, f);
      assert (s + t)[1..] == s[1..] + t;
    }
  }

  lemma {:induction false} SumMonotone<T, U>(s: seq<T>, t: seq<U>, f: T -> int, g: U -> int)
    requires |s| == |t|
    requires forall i | 0 <= i < |s| :: f(s[i]) <= g(t[i])
    ensures Sum(s, f) <= Sum(t, g)
  {
    if s != [] {
      assert f(s[0]) <= g(t[0]);
      assert forall i | 0 <= i < |s[1..]| :: s[1..][i] == s[i + 1] && t[1..][i] == t[i + 1];
      SumMonotone(s[1..], t[1..], f, g);
    }
  }

  lemma {:induction false} SumStrict<T, U>(s: seq<T>, t: seq<U>, w: nat, f: T -> int, g: U -> int)
    requires w < |s| == |t|
    requires forall i | 0 <= i < |s| :: f(s[i]) <= g(t[i])
    requires f(s[w]) < g(t[w])
    ensures Sum(s, f) < Sum(t, g)
  {
    assert f(s[0]) <= g(t[0]);
    assert forall i | 0 <= i < |s[1..]| :: s[1..][i] == s[i + 1] && t[1..][i] == t[i + 1];
    if w == 0 {
      SumMonotone(s[1..], t[1..], f, g);
    } else {
      SumStrict(s[1..], t[1..], w - 1, f, g);
    }
  }

  lemma {:induction false} SumLower<T>(s: seq<T>, f: T -> int, lo: int)
    requires forall i | 0 <= i < |s| :: lo <= f(s[i])
    ensures |s| * lo <= Sum(s, f)
  {
    if s != [] {
      assert forall i | 0 <= i < |s[1..]| :: s[1..][i] == s[i + 1];
      SumLower(s[1..], f, lo);
      assert |s| * lo == lo + |s[1..]| * lo;
    }
  }

  lemma {:induction false} SumUpper<T>(s: seq<T>, f: T -> int, hi: int)
    requires forall i | 0 <= i < |s| :: f(s[i]) <= hi
    ensures Sum(s, f) <= |s| * hi
  {
    if s != [] {
      assert forall i | 0 <= i < |s[1..]| :: s[1..][i] == s[i + 1];
      SumUpper(s[1..], f, hi);
      assert |s| * hi == hi + |s[1..]| * hi;
    }
  }

  /** With non-negative weights, one term never exceeds the sum. */
  lemma {:induction false} SumAtLeast<T>(s: seq<T>, i: nat, f: T -> int)
    requires i < |s|
    requires forall j | 0 <= j < |s| :: 0 <= f(s[j])
    ensures f(s[i]) <= Sum(s, f)
  {
    assert forall j | 0 <= j < |s[1..]| :: s[1..][j] == s[j + 1];
    if i == 0 {
      SumLower(s[1..], f, 0);
    } else {
      assert 0 <= f(s[0]);
      SumAtLeast(s[1..], i - 1, f);
    }
  }

  /** A positive sum has a positive term. */
  lemma {:induction false} PositiveTerm<T>(s: seq<T>, f: T -> int) returns (i: nat)
    requires Sum(s, f) > 0
    ensures i < |s| && f(s[i]) > 0
  {
    if f(s[0]) > 0 {
      i := 0;
    } else {
      i := PositiveTerm(s[1..], f);
      i := i + 1;
    }
  }

  // ---------- Counting ----------

  function Count<T>(s: seq<T>, which: T -> bool): nat {
    if s == [] then 0 else (if which(s[0]) then 1 else 0) + Count(s[1..], which)
  }

  lemma {:induction false} CountSnoc<T>(s: seq<T>, x: T, which: T -> bool)
    ensures Count(s + [x], which) == Count(s, which) + if which(x) then 1 else 0
  {
    if s != [] {
      CountSnoc(s[1..], x, which);
      assert (s + [x])[1..] == s[1..] + [x];
    }
  }

  ghost function Positions<T>(s: seq<T>, which: T -> bool): set<nat> {
    set i: nat | i < |s| && which(s[i])
  }

  /** `Count` is the number of positions that satisfy the predicate. */
  lemma {:induction false} CountIsCardinality<T>(s: seq<T>, which: T -> bool)
    ensures Count(s, which) == |Positions(s, which)|
    decreases |s|
  {
    if s == [] {
      assert Positions(s, which) == {};
    } else {
      var m := |s| - 1;
      CountIsCardinality(s[..m], which);
      CountSnoc(s[..m], s[m], which);
      assert s[..m] + [s[m]] == s;
      var before := Positions(s[..m], which);
      assert Positions(s, which) == if which(s[m]) then before + {m} else before;
    }
  }
}
