/** What the concurrent test clients report, and sums of it. */
module TestCounts {

  datatype ClntRes = ClntRes(nok: nat, nmaybe: nat)

  function Sum(xs: seq<nat>): nat {
    if xs == [] then 0 else Sum(xs[..|xs| - 1]) + xs[|xs| - 1]
  }

  lemma {:induction false} SumUpdate(xs: seq<nat>, i: nat, x: nat)
    requires i < |xs|
    ensures Sum(xs[i := x]) + xs[i] == Sum(xs) + x
  {
    var init := xs[..|xs| - 1];
    if i < |init| {
      SumUpdate(init, i, x);
      assert xs[i := x][..|xs| - 1] == init[i := x];
    } else {
      assert xs[i := x][..|xs| - 1] == init;
    }
  }

  lemma {:induction false} SumMonotone(xs: seq<nat>, ys: seq<nat>)
    requires |xs| == |ys| && forall i :: 0 <= i < |xs| ==> xs[i] <= ys[i]
    ensures Sum(xs) <= Sum(ys)
  {
    if xs != [] { SumMonotone(xs[..|xs| - 1], ys[..|ys| - 1]); }
  }

  lemma {:induction false} SumZero(n: nat)
    ensures Sum(seq(n, _ => 0)) == 0
  {
    if n > 0 {
      SumZero(n - 1);
      assert seq<nat>(n, _ => 0)[..n - 1] == seq<nat>(n - 1, _ => 0);
    }
  }

  function Oks(rs: seq<ClntRes>): seq<nat> {
    seq(|rs|, i requires 0 <= i < |rs| => rs[i].nok)
  }

  function OksAndMaybes(rs: seq<ClntRes>): seq<nat> {
    seq(|rs|, i requires 0 <= i < |rs| => rs[i].nok + rs[i].nmaybe)
  }
}
