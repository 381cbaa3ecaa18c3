// Sums of a weight over a sequence, for progress measures and counts.
module Totals {
  function Total<T>(f: T -> nat, s: seq<T>): nat {
    if |s| == 0 then 0 else f(s[0]) + Total(f, s[1..])
  }

  lemma {:induction false} TotalUpdate<T>(f: T -> nat, s: seq<T>, i: nat, x: T)
    requires i < |s|
    ensures Total(f, s[i := x]) + f(s[i]) == Total(f, s) + f(x)
  {
    if i == 0 {
      assert s[i := x][1..] == s[1..];
    } else {
      assert s[i := x][1..] == s[1..][i - 1 := x];
      TotalUpdate(f, s[1..], i - 1, x);
    }
  }

  /** If no weight grows by more than d, the total grows by at most d for each element. */
  lemma {:induction false} TotalGrowth<T>(f: T -> nat, s: seq<T>, t: seq<T>, d: nat)
    requires |s| == |t|
    requires forall i :: 0 <= i < |s| ==> f(t[i]) <= f(s[i]) + d
    ensures Total(f, t) <= Total(f, s) + d * |s|
  {
    if |s| > 0 {
      assert f(t[0]) <= f(s[0]) + d;
      TotalGrowth(f, s[1..], t[1..], d);
      assert d * |s| == d * |s[1..]| + d;
    }
  }

  lemma {:induction false} TotalOfEqual<T>(f: T -> nat, s: seq<T>, c: nat)
    requires forall i :: 0 <= i < |s| ==> f(s[i]) == c
    ensures Total(f, s) == c * |s|
  {
    if |s| > 0 {
      assert f(s[0]) == c;
      TotalOfEqual(f, s[1..], c);
      assert c * |s| == c * |s[1..]| + c;
    }
  }

  lemma {:induction false} TotalAtLeast<T>(f: T -> nat, s: seq<T>, i: nat)
    requires i < |s|
    ensures f(s[i]) <= Total(f, s)
  {
    if i > 0 {
      TotalAtLeast(f, s[1..], i - 1);
    }
  }

  lemma {:induction false} TotalOfTwo<T>(f: T -> nat, s: seq<T>, i: nat, j: nat)
    requires i < j < |s|
    ensures f(s[i]) + f(s[j]) <= Total(f, s)
  {
    if i == 0 {
      TotalAtLeast(f, s[1..], j - 1);
    } else {
      TotalOfTwo(f, s[1..], i - 1, j - 1);
    }
  }

  lemma {:induction false} TotalPositive<T>(f: T -> nat, s: seq<T>) returns (i: nat)
    requires Total(f, s) > 0
    ensures i < |s| && f(s[i]) > 0
  {
    if f(s[0]) > 0 {
      i := 0;
    } else {
      i := TotalPositive(f, s[1..]);
      i := i + 1;
    }
  }
}
