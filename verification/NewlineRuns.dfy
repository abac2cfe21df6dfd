/** What it means to collapse runs: `v` is `d` with every maximal run of `nl` reduced to one. The
    definition speaks about positions and not about any way of computing `v`. */
module NewlineRuns {
  /** Position i of `d` shows up in `v` at f[i]: neighbours stay neighbours, except that two equal to `nl`
      share one place, and nothing else is in `v`. */
  ghost predicate CollapseMap<T>(d: seq<T>, nl: T, v: seq<T>, f: seq<nat>) {
    && |f| == |d|
    && (d == [] <==> v == [])
    && (d != [] ==> f[0] == 0 && f[|d| - 1] == |v| - 1)
    && (forall i :: 0 <= i < |d| ==> f[i] < |v| && v[f[i]] == d[i])
    && (forall i, j :: 0 <= i && j == i + 1 && j < |d| ==> f[j] == f[i] + if d[i] == nl && d[j] == nl then 0 else 1)
  }

  ghost predicate Collapses<T>(d: seq<T>, nl: T, v: seq<T>) {
    exists f :: CollapseMap(d, nl, v, f)
  }

  // ---------------------------------------------------------------------------
  // How to build one

  lemma CollapsesEmpty<T>(nl: T)
    ensures Collapses<T>([], nl, [])
  {
    assert CollapseMap<T>([], nl, [], []);
  }

  /** A second `nl` before a run changes nothing. */
  lemma CollapsesAgain<T>(d: seq<T>, nl: T, v: seq<T>)
    requires Collapses(d, nl, v) && d != [] && d[0] == nl
    ensures Collapses([nl] + d, nl, v)
  {
    var f :| CollapseMap(d, nl, v, f);
    assert CollapseMap([nl] + d, nl, v, [0] + f);
  }

  function Shifted(f: seq<nat>): (g: seq<nat>)
    ensures |g| == |f| && forall i :: 0 <= i < |f| ==> g[i] == f[i] + 1
  {
    seq(|f|, i requires 0 <= i < |f| => f[i] + 1)
  }

  /** Any other element comes in front. */
  lemma CollapsesCons<T>(x: T, d: seq<T>, nl: T, v: seq<T>)
    requires Collapses(d, nl, v) && !(x == nl && d != [] && d[0] == nl)
    ensures Collapses([x] + d, nl, [x] + v)
  {
    var f :| CollapseMap(d, nl, v, f);
    var g := [0] + Shifted(f);
    var e, u := [x] + d, [x] + v;
    forall i | 0 <= i < |e|
      ensures g[i] < |u| && u[g[i]] == e[i]
    {
      ShiftedPlace(x, d, nl, v, f, i);
    }
    forall i, j | 0 <= i && j == i + 1 && j < |e|
      ensures g[j] == g[i] + if e[i] == nl && e[j] == nl then 0 else 1
    {
      ShiftedStep(x, d, nl, v, f, i);
    }
    assert CollapseMap(e, nl, u, g);
  }

  lemma ShiftedPlace<T>(x: T, d: seq<T>, nl: T, v: seq<T>, f: seq<nat>, i: nat)
    requires CollapseMap(d, nl, v, f) && i <= |d|
    ensures var g := [0] + Shifted(f); g[i] < |v| + 1 && ([x] + v)[g[i]] == ([x] + d)[i]
  {
    if i > 0 {
      assert ([0] + Shifted(f))[i] == f[i - 1] + 1;
      assert v[f[i - 1]] == d[i - 1];
    }
  }

  lemma ShiftedStep<T>(x: T, d: seq<T>, nl: T, v: seq<T>, f: seq<nat>, i: nat)
    requires CollapseMap(d, nl, v, f) && i < |d| && !(x == nl && d[0] == nl)
    ensures var g := [0] + Shifted(f);
            var e := [x] + d;
            g[i + 1] == g[i] + if e[i] == nl && e[i + 1] == nl then 0 else 1
  {
    if i > 0 {
      var j := i - 1;
      assert f[j + 1] == f[j] + if d[j] == nl && d[j + 1] == nl then 0 else 1;
    }
  }

  // ---------------------------------------------------------------------------
  // What follows from it

  lemma {:induction false} SameMap<T>(d: seq<T>, nl: T, v: seq<T>, f: seq<nat>, u: seq<T>, g: seq<nat>, i: nat)
    requires CollapseMap(d, nl, v, f) && CollapseMap(d, nl, u, g) && i < |d|
    ensures f[i] == g[i]
  {
    if i > 0 {
      SameMap(d, nl, v, f, u, g, i - 1);
    }
  }

  /** Every place is taken. */
  lemma {:induction false} Hit<T>(d: seq<T>, nl: T, v: seq<T>, f: seq<nat>, i: nat, k: nat) returns (j: nat)
    requires CollapseMap(d, nl, v, f) && i < |d| && f[i] <= k < |v|
    ensures i <= j < |d| && f[j] == k
    decreases |d| - i
  {
    if f[i] == k {
      j := i;
    } else {
      assert i < |d| - 1;
      assert f[i + 1] <= f[i] + 1;
      j := Hit(d, nl, v, f, i + 1, k);
    }
  }

  /** There is only one way to collapse the runs. */
  lemma CollapsesUnique<T>(d: seq<T>, nl: T, v: seq<T>, u: seq<T>)
    requires Collapses(d, nl, v) && Collapses(d, nl, u)
    ensures v == u
  {
    var f :| CollapseMap(d, nl, v, f);
    var g :| CollapseMap(d, nl, u, g);
    if d != [] {
      SameMap(d, nl, v, f, u, g, |d| - 1);
      forall k | 0 <= k < |v|
        ensures v[k] == u[k]
      {
        var j := Hit(d, nl, v, f, 0, k);
        SameMap(d, nl, v, f, u, g, j);
      }
    }
  }

  /** No run is left. */
  lemma NoRunLeft<T>(d: seq<T>, nl: T, v: seq<T>, k: nat)
    requires Collapses(d, nl, v) && k + 1 < |v|
    ensures !(v[k] == nl && v[k + 1] == nl)
  {
    var f :| CollapseMap(d, nl, v, f);
    var j := LastAt(d, nl, v, f, 0, k);
    assert f[j + 1] == f[j] + if d[j] == nl && d[j + 1] == nl then 0 else 1;
  }

  lemma {:induction false} LastAt<T>(d: seq<T>, nl: T, v: seq<T>, f: seq<nat>, i: nat, k: nat) returns (j: nat)
    requires CollapseMap(d, nl, v, f) && i < |d| && f[i] <= k && k + 1 < |v|
    ensures i <= j && j + 1 < |d| && f[j] == k && f[j + 1] == k + 1
    decreases |d| - i
  {
    assert i < |d| - 1;
    assert f[i + 1] <= f[i] + 1;
    if f[i + 1] == k + 1 {
      j := i;
    } else {
      j := LastAt(d, nl, v, f, i + 1, k);
    }
  }

  /** What is not `nl`, in order. */
  ghost function Others<T>(d: seq<T>, nl: T): seq<T> {
    if d == [] then [] else Others(d[..|d| - 1], nl) + if d[|d| - 1] == nl then [] else [d[|d| - 1]]
  }

  /** Everything else is as it was. */
  lemma {:induction false} OthersStay<T>(d: seq<T>, nl: T, v: seq<T>)
    requires Collapses(d, nl, v)
    ensures Others(v, nl) == Others(d, nl)
    decreases |d|
  {
    var f :| CollapseMap(d, nl, v, f);
    if |d| == 1 {
      assert v == d;
    } else if |d| > 1 {
      var n := |d| - 1;
      var last := f[n - 1];
      assert f[n] == last + if d[n - 1] == nl && d[n] == nl then 0 else 1;
      var u := v[..last + 1];
      Monotone(d, nl, v, f, n - 1);
      assert CollapseMap(d[..n], nl, u, f[..n]);
      OthersStay(d[..n], nl, u);
      if f[n] == last {
        assert u == v;
      } else {
        assert v[..|v| - 1] == u;
      }
    }
  }

  lemma {:induction false} Monotone<T>(d: seq<T>, nl: T, v: seq<T>, f: seq<nat>, n: nat)
    requires CollapseMap(d, nl, v, f) && n < |d|
    ensures forall i :: 0 <= i <= n ==> f[i] <= f[n]
  {
    if n > 0 {
      Monotone(d, nl, v, f, n - 1);
      assert f[n] >= f[n - 1];
    }
  }
}
