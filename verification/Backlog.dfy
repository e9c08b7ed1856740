/** The largest backlog overrun (`mittelwerk/analytics/operations.py`): the running total less its running minimum,
    at its largest, is the largest sum over any run of consecutive days. */
module Backlogs {
  import opened Options
  import Orders

  function Total(h: seq<real>): real {
    if h == [] then 0.0 else Total(h[..|h| - 1]) + h[|h| - 1]
  }

  /** The running total, from 0 before the first day. */
  function Cumulative(h: seq<real>): (r: seq<real>)
    ensures |r| == |h| + 1
  {
    if h == [] then [0.0]
    else
      var front := Cumulative(h[..|h| - 1]);
      front + [front[|h| - 1] + h[|h| - 1]]
  }

  function RunningMin(s: seq<real>): (r: seq<real>)
    ensures |r| == |s|
  {
    if |s| <= 1 then s
    else
      var front := RunningMin(s[..|s| - 1]);
      front + [Orders.Min(front[|s| - 2], s[|s| - 1])]
  }

  function Minus(x: seq<real>, y: seq<real>): seq<real>
    requires |x| == |y|
  {
    seq(|x|, i requires 0 <= i < |x| => x[i] - y[i])
  }

  function Largest(s: seq<real>): (r: real)
    requires s != []
    ensures r in s && forall x | x in s :: x <= r
  {
    if |s| == 1 then s[0]
    else
      var front := Largest(s[..|s| - 1]);
      assert s == s[..|s| - 1] + [s[|s| - 1]];
      if front >= s[|s| - 1] then front else s[|s| - 1]
  }

  /** Nothing for an empty history. */
  function MaxOverrun(h: seq<real>): Option<real> {
    if h == [] then None
    else
      var c := Cumulative(h);
      Some(Largest(Minus(c, RunningMin(c))))
  }

  lemma {:induction false} CumulativeAt(h: seq<real>, i: nat)
    requires i <= |h|
    ensures Cumulative(h)[i] == Total(h[..i])
  {
    if i == |h| {
      assert h[..i] == h;
      if h != [] {
        CumulativeAt(h[..|h| - 1], |h| - 1);
        assert h[..|h| - 1][..|h| - 1] == h[..|h| - 1];
      }
    } else {
      CumulativeAt(h[..|h| - 1], i);
      assert h[..|h| - 1][..i] == h[..i];
    }
  }

  lemma {:induction false} RunningMinAt(s: seq<real>, j: nat)
    requires j < |s|
    ensures exists i :: 0 <= i <= j && RunningMin(s)[j] == s[i]
    ensures forall i | 0 <= i <= j :: RunningMin(s)[j] <= s[i]
  {
    if |s| > 1 {
      var front := s[..|s| - 1];
      if j < |s| - 1 {
        RunningMinAt(front, j);
      } else {
        RunningMinAt(front, j - 1);
        var i :| 0 <= i <= j - 1 && RunningMin(front)[j - 1] == front[i];
        assert RunningMin(s)[j] == s[i] || RunningMin(s)[j] == s[j];
      }
    } else {
      assert RunningMin(s)[j] == s[j];
    }
  }

  /** The sum of a run of days is the difference of the running totals at its ends. */
  lemma {:induction false} RunTotal(h: seq<real>, i: nat, j: nat)
    requires i <= j <= |h|
    ensures Total(h[i..j]) == Cumulative(h)[j] - Cumulative(h)[i]
  {
    CumulativeAt(h, i);
    CumulativeAt(h, j);
    if i < j {
      RunTotal(h, i, j - 1);
      CumulativeAt(h, j - 1);
      assert h[i..j][..j - i - 1] == h[i..j - 1];
      assert h[..j][..j - 1] == h[..j - 1];
    }
  }

  /** No run of days, empty ones among them, sums to more. */
  lemma NoRunIsLarger(h: seq<real>, i: nat, j: nat)
    requires h != [] && i <= j <= |h|
    ensures Total(h[i..j]) <= MaxOverrun(h).value
  {
    var c := Cumulative(h);
    RunTotal(h, i, j);
    RunningMinAt(c, j);
    assert Minus(c, RunningMin(c))[j] in Minus(c, RunningMin(c));
  }

  /** And some run does sum to it. */
  lemma SomeRunReaches(h: seq<real>) returns (i: nat, j: nat)
    requires h != []
    ensures i <= j <= |h| && Total(h[i..j]) == MaxOverrun(h).value
  {
    var c := Cumulative(h);
    var d := Minus(c, RunningMin(c));
    j :| 0 <= j < |d| && d[j] == Largest(d);
    RunningMinAt(c, j);
    i :| 0 <= i <= j && RunningMin(c)[j] == c[i];
    RunTotal(h, i, j);
  }

  function Added(x: seq<real>, y: seq<real>): seq<real>
    requires |x| == |y|
  {
    seq(|x|, i requires 0 <= i < |x| => x[i] + y[i])
  }

  lemma {:induction false} TotalAdds(x: seq<real>, y: seq<real>)
    requires |x| == |y|
    ensures Total(Added(x, y)) == Total(x) + Total(y)
  {
    if x != [] {
      var n := |x| - 1;
      TotalAdds(x[..n], y[..n]);
      assert Added(x, y)[..n] == Added(x[..n], y[..n]);
    }
  }

  /** Two histories combined never overrun by more than both do apart. */
  lemma CombinedOverrun(x: seq<real>, y: seq<real>)
    requires |x| == |y| && x != []
    ensures MaxOverrun(Added(x, y)).value <= MaxOverrun(x).value + MaxOverrun(y).value
  {
    var i, j := SomeRunReaches(Added(x, y));
    assert Added(x, y)[i..j] == Added(x[i..j], y[i..j]);
    TotalAdds(x[i..j], y[i..j]);
    NoRunIsLarger(x, i, j);
    NoRunIsLarger(y, i, j);
  }
}
