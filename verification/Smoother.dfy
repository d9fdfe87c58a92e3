/** The circular smoother of services/ppa_rf_contour.py.  The normalised window weights come in as a
    parameter: the cosine that makes them is not part of this model. */
module Smoother {
  import opened Wrappers

  datatype Fault = IndexOutOfRange

  function Sum(s: seq<real>): (r: real) {
    if s == [] then 0.0 else Sum(s[..|s| - 1]) + s[|s| - 1]
  }

  /** The k-th value counted around the circle, from either side of 0. */
  function Around(values: seq<real>, k: int): (v: real)
    requires values != []
    ensures v in values
    decreases if k < 0 then |values| - k else k
  {
    if k < 0 then Around(values, k + |values|)
    else if k < |values| then values[k]
    else Around(values, k - |values|)
  }

  /** The last `half` values, the values, the first `half` values; Python slices stop at the ends. */
  function Extended(values: seq<real>, half: nat): (r: seq<real>) {
    (if half == 0 then values else if half >= |values| then values else values[|values| - half..]) +
    values +
    (if half >= |values| then values else values[..half])
  }

  /** Reference definition of one output: the weighted window that starts at i, around the circle. */
  function Window(values: seq<real>, weights: seq<real>, i: int): (acc: real)
    requires values != []
  {
    if weights == [] then 0.0
    else
      var m := |weights| - 1;
      Window(values, weights[..m], i) + Around(values, i + m) * weights[m]
  }

  function Smoothed(values: seq<real>, weights: seq<real>): (r: seq<real>)
    requires values != []
    ensures |r| == |values|
  {
    seq(|values|, i requires 0 <= i < |values| => Window(values, weights, i - |weights| / 2))
  }

  /** Position k of a circle of n places, after so many turns, is place j. */
  predicate Lands(j: nat, turns: int, k: int, n: nat) {
    j < n && k == j + turns * n
  }

  /** t is the value at position k around the circle, times w. */
  ghost predicate IsTerm(values: seq<real>, k: int, w: real, t: real) {
    exists j: nat, turns: int :: Lands(j, turns, k, |values|) && t == values[j] * w
  }

  /** `sum` adds up the products of the weights with the values from position k on, around the circle. */
  ghost predicate AddsUp(values: seq<real>, weights: seq<real>, k: int, sum: real) {
    exists terms :: |terms| == |weights| && sum == Sum(terms) && forall m :: 0 <= m < |weights| ==> IsTerm(values, k + m, weights[m], terms[m])
  }

  lemma OneTurn(turns: int, n: nat)
    ensures (turns + 1) * n == turns * n + n && (turns - 1) * n == turns * n - n
  {
  }

  lemma {:induction false} PlaceAround(values: seq<real>, k: int) returns (j: nat, turns: int)
    requires values != []
    ensures Lands(j, turns, k, |values|) && Around(values, k) == values[j]
    decreases if k < 0 then |values| - k else k
  {
    if k < 0 {
      j, turns := PlaceAround(values, k + |values|);
      OneTurn(turns, |values|);
      turns := turns - 1;
    } else if k < |values| {
      j, turns := k, 0;
    } else {
      j, turns := PlaceAround(values, k - |values|);
      OneTurn(turns, |values|);
      turns := turns + 1;
    }
  }

  lemma AddsUpStep(values: seq<real>, weights: seq<real>, k: int, sum: real, w: real, t: real)
    requires AddsUp(values, weights, k, sum) && IsTerm(values, k + |weights|, w, t)
    ensures AddsUp(values, weights + [w], k, sum + t)
  {
    var terms :| |terms| == |weights| && sum == Sum(terms) && forall m :: 0 <= m < |weights| ==> IsTerm(values, k + m, weights[m], terms[m]);
    assert (terms + [t])[..|terms|] == terms;
    forall m | 0 <= m < |weights| + 1 ensures IsTerm(values, k + m, (weights + [w])[m], (terms + [t])[m]) {
    }
  }

  lemma {:induction false} WindowAddsUp(values: seq<real>, weights: seq<real>, k: int)
    requires values != []
    ensures AddsUp(values, weights, k, Window(values, weights, k))
  {
    if weights == [] {
      assert Sum([]) == 0.0;
    } else {
      var front, w := weights[..|weights| - 1], weights[|weights| - 1];
      WindowAddsUp(values, front, k);
      var j, turns := PlaceAround(values, k + |front|);
      AddsUpStep(values, front, k, Window(values, front, k), w, values[j] * w);
      assert front + [w] == weights;
    }
  }

  lemma WindowByLast(values: seq<real>, front: seq<real>, w: real, i: int)
    requires values != []
    ensures Window(values, front + [w], i) == Window(values, front, i) + Around(values, i + |front|) * w
  {
    assert (front + [w])[..|front|] == front;
  }

  lemma ExtendedIsAround(values: seq<real>, half: nat, k: nat)
    requires 0 < half <= |values| && k < |values| + 2 * half
    ensures |Extended(values, half)| == |values| + 2 * half
    ensures Extended(values, half)[k] == Around(values, k - half)
  {
  }

  lemma SmoothedInFields(values: seq<real>, weights: seq<real>, half: nat)
    requires values != [] && half == |weights| / 2
    ensures forall i :: 0 <= i < |values| ==> AddsUp(values, weights, i - half, Smoothed(values, weights)[i])
  {
    forall i | 0 <= i < |values| ensures AddsUp(values, weights, i - half, Smoothed(values, weights)[i]) {
      WindowAddsUp(values, weights, i - half);
    }
  }

  /** One pass of the inner loop; None when it reads past the end. */
  method Accumulate(values: seq<real>, weights: seq<real>, extended: seq<real>, half: nat, i: nat) returns (acc: Option<real>)
    requires i < |values| && half == |weights| / 2 && half > 0 && extended == Extended(values, half)
    ensures acc.Some? <==> i + |weights| <= |extended|
    ensures half <= |values| ==> acc == Some(Window(values, weights, i - half))
  {
    var sum := 0.0;
    for j := 0 to |weights|
      invariant j > 0 ==> i + j <= |extended|
      invariant half <= |values| ==> sum == Window(values, weights[..j], i - half)
    {
      if half <= |values| {
        ExtendedIsAround(values, half, i + j);
        WindowByLast(values, weights[..j], weights[j], i - half);
        assert weights[..j + 1] == weights[..j] + [weights[j]];
      }
      if i + j >= |extended| {
        return None;
      }
      sum := sum + extended[i + j] * weights[j];
    }
    assert weights[..|weights|] == weights;
    acc := Some(sum);
  }

  /** The nested loops.  With fewer values than half a window the source reads past the end. */
  method HammingFilter(values: seq<real>, windowLen: nat, weights: seq<real>) returns (r: Result<seq<real>, Fault>)
    requires |weights| == windowLen
    ensures windowLen < 3 || values == [] ==> r == Ok(values)
    ensures windowLen >= 3 && values != [] && |values| >= windowLen / 2 ==> r == Ok(Smoothed(values, weights))
    ensures windowLen >= 3 && values != [] && |values| < windowLen / 2 ==> r == Err(IndexOutOfRange)
    ensures windowLen >= 3 && values != [] && |values| >= windowLen / 2 ==>
              |r.value| == |values| && forall i :: 0 <= i < |values| ==> AddsUp(values, weights, i - windowLen / 2, r.value[i])
  {
    if windowLen < 3 || values == [] {
      return Ok(values);
    }
    var half := windowLen / 2;
    var extended := Extended(values, half);
    if half <= |values| {
      ExtendedIsAround(values, half, 0);
    }
    var out: seq<real> := [];
    for i := 0 to |values|
      invariant |out| == i
      invariant i > 0 ==> i - 1 + windowLen <= |extended|
      invariant half <= |values| ==> forall a :: 0 <= a < i ==> out[a] == Window(values, weights, a - half)
    {
      var acc := Accumulate(values, weights, extended, half, i);
      if acc.None? {
        return Err(IndexOutOfRange);
      }
      out := out + [acc.value];
    }
    r := Ok(out);
    if half <= |values| {
      assert out == Smoothed(values, weights);
      SmoothedInFields(values, weights, half);
    }
  }

  // -------------------------------------------------------------- conservation

  /** Sum of n values from k on. */
  function TurnSum(values: seq<real>, k: int, n: nat): (r: real)
    requires values != []
  {
    if n == 0 then 0.0 else TurnSum(values, k, n - 1) + Around(values, k + n - 1)
  }

  lemma {:induction false} TurnSumIsSum(values: seq<real>, n: nat)
    requires values != [] && n <= |values|
    ensures TurnSum(values, 0, n) == Sum(values[..n])
  {
    if n > 0 {
      TurnSumIsSum(values, n - 1);
      assert values[..n][..n - 1] == values[..n - 1];
    }
  }

  lemma {:induction false} TurnSumShift(values: seq<real>, k: int, n: nat)
    requires values != [] && n > 0
    ensures TurnSum(values, k + 1, n) == TurnSum(values, k, n) - Around(values, k) + Around(values, k + n)
  {
    if n > 1 {
      TurnSumShift(values, k, n - 1);
      assert k + 1 + n - 1 == k + n;
    } else {
      assert TurnSum(values, k, 1) == TurnSum(values, k, 0) + Around(values, k);
      assert TurnSum(values, k + 1, 1) == TurnSum(values, k + 1, 0) + Around(values, k + 1);
    }
  }

  lemma FullTurn(values: seq<real>, k: int)
    requires values != []
    ensures Around(values, k + |values|) == Around(values, k)
    ensures TurnSum(values, k + 1, |values|) == TurnSum(values, k, |values|)
  {
    TurnSumShift(values, k, |values|);
  }

  lemma {:induction false} EveryTurnIsTheSum(values: seq<real>, k: int)
    requires values != []
    ensures TurnSum(values, k, |values|) == Sum(values)
    decreases if k < 0 then -k else k
  {
    if k == 0 {
      TurnSumIsSum(values, |values|);
      assert values[..|values|] == values;
    } else if k > 0 {
      EveryTurnIsTheSum(values, k - 1);
      FullTurn(values, k - 1);
    } else {
      EveryTurnIsTheSum(values, k + 1);
      FullTurn(values, k);
    }
  }

  /** Sum of the first n outputs. */
  function WindowSum(values: seq<real>, weights: seq<real>, shift: int, n: nat): (r: real)
    requires values != []
  {
    if n == 0 then 0.0 else WindowSum(values, weights, shift, n - 1) + Window(values, weights, n - 1 + shift)
  }

  /** One weight, times every value of a turn. */
  function ScaledTurn(values: seq<real>, k: int, w: real, n: nat): (r: real)
    requires values != []
  {
    if n == 0 then 0.0 else ScaledTurn(values, k, w, n - 1) + Around(values, k + n - 1) * w
  }

  lemma {:induction false} ScaledTurnIsProduct(values: seq<real>, k: int, w: real, n: nat)
    requires values != []
    ensures ScaledTurn(values, k, w, n) == TurnSum(values, k, n) * w
  {
    if n > 0 {
      ScaledTurnIsProduct(values, k, w, n - 1);
      Distribute(TurnSum(values, k, n - 1), Around(values, k + n - 1), w);
    }
  }

  /** Sums of windows, weight by weight: the last weight meets every value once. */
  lemma {:induction false} WindowSumByWeights(values: seq<real>, front: seq<real>, w: real, shift: int, n: nat)
    requires values != []
    ensures WindowSum(values, front + [w], shift, n) == WindowSum(values, front, shift, n) + ScaledTurn(values, shift + |front|, w, n)
  {
    if n > 0 {
      WindowSumByWeights(values, front, w, shift, n - 1);
      WindowByLast(values, front, w, n - 1 + shift);
      assert n - 1 + shift + |front| == shift + |front| + n - 1;
    }
  }

  lemma Distribute(a: real, b: real, c: real)
    ensures (a + b) * c == a * c + b * c
  {
  }

  /** A total, times every weight. */
  function Portions(total: real, weights: seq<real>): (r: real) {
    if weights == [] then 0.0 else Portions(total, weights[..|weights| - 1]) + total * weights[|weights| - 1]
  }

  lemma {:induction false} PortionsAreProduct(total: real, weights: seq<real>)
    ensures Portions(total, weights) == total * Sum(weights)
  {
    if weights != [] {
      PortionsAreProduct(total, weights[..|weights| - 1]);
      Distribute(Sum(weights[..|weights| - 1]), weights[|weights| - 1], total);
    }
  }

  lemma SumByLast(front: seq<real>, w: real)
    ensures Sum(front + [w]) == Sum(front) + w
  {
    assert (front + [w])[..|front|] == front;
  }

  lemma {:induction false} WindowSumTotal(values: seq<real>, weights: seq<real>, shift: int)
    requires values != []
    ensures WindowSum(values, weights, shift, |values|) == Portions(Sum(values), weights)
    decreases |weights|
  {
    if weights == [] {
      NoWeights(values, shift, |values|);
    } else {
      var front, w := weights[..|weights| - 1], weights[|weights| - 1];
      assert weights == front + [w];
      WindowSumTotal(values, front, shift);
      WindowSumByWeights(values, front, w, shift, |values|);
      ScaledTurnIsProduct(values, shift + |front|, w, |values|);
      EveryTurnIsTheSum(values, shift + |front|);
    }
  }

  lemma {:induction false} NoWeights(values: seq<real>, shift: int, n: nat)
    requires values != []
    ensures WindowSum(values, [], shift, n) == 0.0
  {
    if n > 0 {
      NoWeights(values, shift, n - 1);
    }
  }

  lemma {:induction false} SumOfOutputs(out: seq<real>, values: seq<real>, weights: seq<real>, shift: int)
    requires values != [] && forall i :: 0 <= i < |out| ==> out[i] == Window(values, weights, i + shift)
    ensures Sum(out) == WindowSum(values, weights, shift, |out|)
  {
    if out != [] {
      SumOfOutputs(out[..|out| - 1], values, weights, shift);
    }
  }

  /** Weights that sum to one redistribute the values and neither create nor destroy any. */
  lemma SmoothingConserves(values: seq<real>, weights: seq<real>)
    requires values != [] && Sum(weights) == 1.0
    ensures Sum(Smoothed(values, weights)) == Sum(values)
  {
    SumOfOutputs(Smoothed(values, weights), values, weights, -(|weights| / 2));
    WindowSumTotal(values, weights, -(|weights| / 2));
    PortionsAreProduct(Sum(values), weights);
  }

  lemma ScaleBounds(lo: real, v: real, hi: real, w: real)
    requires lo <= v <= hi && w >= 0.0
    ensures lo * w <= v * w <= hi * w
  {
    assert (v - lo) * w >= 0.0 && (hi - v) * w >= 0.0;
  }

  lemma BetweenStep(lo: real, hi: real, sum: real, window: real, w: real, t: real, sum': real, window': real)
    requires lo * sum <= window <= hi * sum && lo * w <= t <= hi * w
    requires sum' == sum + w && window' == window + t
    ensures lo * sum' <= window' <= hi * sum'
  {
    Distribute(sum, w, lo);
    Distribute(sum, w, hi);
  }

  lemma {:induction false} WindowBetween(values: seq<real>, weights: seq<real>, i: int, lo: real, hi: real)
    requires values != []
    requires forall v :: v in values ==> lo <= v <= hi
    requires forall w :: w in weights ==> w >= 0.0
    ensures lo * Sum(weights) <= Window(values, weights, i) <= hi * Sum(weights)
    decreases |weights|
  {
    if weights != [] {
      var front, w := weights[..|weights| - 1], weights[|weights| - 1];
      assert weights == front + [w];
      assert forall u :: u in front ==> u in weights;
      WindowBetween(values, front, i, lo, hi);
      assert w in weights;
      WindowBetweenStep(values, front, w, i, lo, hi);
    }
  }

  lemma WindowBetweenStep(values: seq<real>, front: seq<real>, w: real, i: int, lo: real, hi: real)
    requires values != [] && w >= 0.0 && lo * Sum(front) <= Window(values, front, i) <= hi * Sum(front)
    requires forall v :: v in values ==> lo <= v <= hi
    ensures lo * Sum(front + [w]) <= Window(values, front + [w], i) <= hi * Sum(front + [w])
  {
    var v := Around(values, i + |front|);
    var t := v * w;
    assert v in values;
    ScaleBounds(lo, v, hi, w);
    WindowByLast(values, front, w, i);
    SumByLast(front, w);
    BetweenStep(lo, hi, Sum(front), Window(values, front, i), w, t, Sum(front + [w]), Window(values, front + [w], i));
  }

  /** Nonnegative weights that sum to one keep every output between the least and greatest input. */
  lemma SmoothingStaysBetween(values: seq<real>, weights: seq<real>, lo: real, hi: real, i: nat)
    requires i < |values| && Sum(weights) == 1.0
    requires forall v :: v in values ==> lo <= v <= hi
    requires forall w :: w in weights ==> w >= 0.0
    ensures lo <= Smoothed(values, weights)[i] <= hi
  {
    WindowBetween(values, weights, i - |weights| / 2, lo, hi);
  }

  function Rotated(values: seq<real>, turn: nat): (r: seq<real>)
    requires turn <= |values|
    ensures |r| == |values|
  {
    values[turn..] + values[..turn]
  }

  lemma {:induction false} RotatedAround(values: seq<real>, turn: nat, k: int)
    requires values != [] && turn <= |values|
    ensures Around(Rotated(values, turn), k) == Around(values, k + turn)
    decreases if k < 0 then |values| - k else k
  {
    var n := |values|;
    if k < 0 {
      RotatedAround(values, turn, k + n);
      FullTurn(values, k + turn);
    } else if k >= n {
      RotatedAround(values, turn, k - n);
      FullTurn(values, k - n + turn);
    }
  }

  lemma {:induction false} WindowRotates(values: seq<real>, weights: seq<real>, turn: nat, i: int)
    requires values != [] && turn <= |values|
    ensures Window(Rotated(values, turn), weights, i) == Window(values, weights, i + turn)
    decreases |weights|
  {
    if weights != [] {
      WindowRotates(values, weights[..|weights| - 1], turn, i);
      RotatedAround(values, turn, i + |weights| - 1);
      assert i + |weights| - 1 + turn == i + turn + |weights| - 1;
    }
  }

  lemma {:induction false} WindowPeriodic(values: seq<real>, weights: seq<real>, i: int)
    requires values != []
    ensures Window(values, weights, i + |values|) == Window(values, weights, i)
    decreases |weights|
  {
    if weights != [] {
      WindowPeriodic(values, weights[..|weights| - 1], i);
      FullTurn(values, i + |weights| - 1);
      assert i + |values| + |weights| - 1 == i + |weights| - 1 + |values|;
    }
  }

  /** Where the circle is cut does not matter: rotating the input rotates the output. */
  lemma SmoothingRotates(values: seq<real>, weights: seq<real>, turn: nat)
    requires values != [] && turn <= |values|
    ensures Smoothed(Rotated(values, turn), weights) == Rotated(Smoothed(values, weights), turn)
  {
    var n := |values|;
    var half := |weights| / 2;
    forall i | 0 <= i < n
      ensures Smoothed(Rotated(values, turn), weights)[i] == Rotated(Smoothed(values, weights), turn)[i]
    {
      WindowRotates(values, weights, turn, i - half);
      if i + turn >= n {
        WindowPeriodic(values, weights, i + turn - n - half);
      }
    }
  }
}
