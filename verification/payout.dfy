/** Settlement arithmetic: the pro-rata `proportion` formula, the protocol fee
    split taken at settlement, and the bound on what all claims of a round
    can pay out together. */
module Payout {
  import opened Wrappers
  import opened Ints
  import opened Errors
  import opened Records

  /** The exact pro-rata share `floor(numerator * totalOut / totalIn)`, on
      unbounded integers; zero when there is nothing to divide by. */
  function Share(numerator: nat, totalOut: nat, totalIn: nat): nat
  {
    if totalIn == 0 then 0 else numerator * totalOut / totalIn
  }

  lemma FloorBounds(a: nat, b: nat)
    requires b > 0
    ensures (a / b) * b <= a < (a / b + 1) * b
  {
  }

  lemma MulLeMono(x: nat, y: nat, b: nat)
    requires x <= y
    ensures x * b <= y * b
  {
  }

  lemma MulLtCancel(x: nat, y: nat, b: nat)
    requires x * b < y * b
    ensures x < y
  {
  }

  lemma MulLeCancel(x: nat, y: nat, b: nat)
    requires b > 0
    requires x * b <= y * b
    ensures x <= y
  {
  }

  /** The floor quotient is the only `q` with `q * b <= a < (q + 1) * b`. */
  lemma FloorUnique(a: nat, b: nat, q: nat)
    requires b > 0
    requires q * b <= a < (q + 1) * b
    ensures q == a / b
  {
    var d := a / b;
    FloorBounds(a, b);
    MulLtCancel(q, d + 1, b);
    MulLtCancel(d, q + 1, b);
  }

  /** `proportion(numerator, total_out, total_in)`: any zero argument gives
      0; otherwise the floor of `numerator * total_out / total_in`, computed
      with a `u64` product that fails with `MathOverflow` when it does not
      fit. */
  function Proportion(numerator: U64, totalOut: U64, totalIn: U64): (r: Result<U64, Error>)
    ensures numerator == 0 || totalOut == 0 || totalIn == 0 ==> r == Ok(0)
    ensures numerator > 0 && totalOut > 0 && totalIn > 0 ==>
      (r.Ok? <==> numerator * totalOut <= U64_MAX)
    ensures r.Err? ==> r.error == MathOverflow
    ensures r.Ok? && totalIn > 0 ==>
      r.value * totalIn <= numerator * totalOut < (r.value + 1) * totalIn
  {
    if totalIn == 0 || totalOut == 0 || numerator == 0 then Ok(0)
    else
      var product :- CheckedMul(numerator, totalOut).OkOr(MathOverflow);
      CheckedDiv(product, totalIn).OkOr(MathOverflow)
  }

  /** Whenever `proportion` succeeds it returns the exact pro-rata share. */
  lemma ProportionIsShare(numerator: U64, totalOut: U64, totalIn: U64)
    requires Proportion(numerator, totalOut, totalIn).Ok?
    ensures Proportion(numerator, totalOut, totalIn).value == Share(numerator, totalOut, totalIn)
  {
    var v := Proportion(numerator, totalOut, totalIn).value;
    if totalIn > 0 {
      FloorUnique(numerator * totalOut, totalIn, v);
    }
  }

  /** A stake no larger than the pool it is measured against never receives
      more than the amount being shared out. */
  lemma ProportionWithinOut(numerator: U64, totalOut: U64, totalIn: U64)
    requires numerator <= totalIn
    requires Proportion(numerator, totalOut, totalIn).Ok?
    ensures Proportion(numerator, totalOut, totalIn).value <= totalOut
  {
    var v := Proportion(numerator, totalOut, totalIn).value;
    if totalIn > 0 {
      MulLeMono(numerator, totalIn, totalOut);
      assert v * totalIn <= totalOut * totalIn;
      MulLeCancel(v, totalOut, totalIn);
    }
  }

  /** `proportion(in, out, in)` returns all of `out`, except that an empty
      pool yields 0 and a product past `u64::MAX` fails. */
  lemma ProportionOfWhole(totalIn: U64, totalOut: U64)
    ensures Proportion(totalIn, totalOut, totalIn) ==
      if totalIn == 0 || totalOut == 0 then Ok(0)
      else if totalIn * totalOut > U64_MAX then Err(MathOverflow)
      else Ok(totalOut)
  {
    if totalIn > 0 && totalOut > 0 && totalIn * totalOut <= U64_MAX {
      FloorUnique(totalIn * totalOut, totalIn, totalOut);
    }
  }

  /** The `u64` product is not wide enough for realistic pools: a 5 SOL
      stake on the winning side of a 10 SOL pool cannot be paid. */
  lemma ProportionOverflowsOnLargeStake()
    ensures Proportion(5_000_000_000, 10_000_000_000, 5_000_000_000) == Err(MathOverflow)
    ensures Share(5_000_000_000, 10_000_000_000, 5_000_000_000) == 10_000_000_000
  {
  }

  /** The fee taken at settlement and what is left to distribute. */
  datatype FeeSplit = FeeSplit(fee: U64, distributable: U64)

  /** The settlement fee computation of `settle_round`: the pool is the sum
      of both side totals; the fee is `floor(pool * fee_bps / 10_000)` with a
      `u64` product; the rest is distributable. */
  function SplitPool(upTotal: U64, downTotal: U64, feeBps: U16): (r: Result<FeeSplit, Error>)
    ensures r.Err? ==> r.error == MathOverflow
    ensures feeBps <= BPS_DENOMINATOR ==>
      (r.Ok? <==> upTotal + downTotal <= U64_MAX && (upTotal + downTotal) * feeBps <= U64_MAX)
    ensures r.Ok? ==> upTotal + downTotal <= U64_MAX
    ensures r.Ok? ==> r.value.fee + r.value.distributable == upTotal + downTotal
    ensures r.Ok? ==>
      r.value.fee * BPS_DENOMINATOR <= (upTotal + downTotal) * feeBps
      < (r.value.fee + 1) * BPS_DENOMINATOR
    ensures r.Ok? && feeBps <= MAX_FEE_BPS ==> r.value.fee * 100 <= (upTotal + downTotal) * 15
  {
    var total :- CheckedAdd(upTotal, downTotal).OkOr(MathOverflow);
    var scaled :- CheckedMul(total, feeBps).OkOr(MathOverflow);
    // `checked_div` by the non-zero denominator cannot fail.
    var fee := scaled / BPS_DENOMINATOR;
    FeeBounds(total, feeBps, scaled, fee);
    var distributable :- CheckedSub(total, fee).OkOr(MathOverflow);
    Ok(FeeSplit(fee, distributable))
  }

  lemma FeeBounds(total: nat, feeBps: nat, scaled: nat, fee: nat)
    requires scaled == total * feeBps
    requires fee == scaled / BPS_DENOMINATOR
    ensures fee * BPS_DENOMINATOR <= scaled < (fee + 1) * BPS_DENOMINATOR
    ensures feeBps <= BPS_DENOMINATOR ==> fee <= total
    ensures feeBps <= MAX_FEE_BPS ==> fee * 100 <= total * 15
  {
    FloorBounds(scaled, BPS_DENOMINATOR);
    if feeBps <= BPS_DENOMINATOR {
      MulLeMono(feeBps, BPS_DENOMINATOR, total);
      MulLeCancel(fee, total, BPS_DENOMINATOR);
    }
    if feeBps <= MAX_FEE_BPS {
      MulLeMono(feeBps, MAX_FEE_BPS, total);
    }
  }

  /** The worked example of the fee: 250 bps of a 1,000,000-lamport pool. */
  lemma FeeExample()
    ensures SplitPool(600_000, 400_000, 250) == Ok(FeeSplit(25_000, 975_000))
  {
  }

  /** Total of a sequence of amounts. */
  function Sum(xs: seq<nat>): nat
  {
    if |xs| == 0 then 0 else Sum(xs[..|xs| - 1]) + xs[|xs| - 1]
  }

  lemma SumAppend(xs: seq<nat>, x: nat)
    ensures Sum(xs + [x]) == Sum(xs) + x
  {
    assert (xs + [x])[..|xs|] == xs;
  }

  /** Replacing one entry changes the total by the difference. */
  lemma {:induction false} SumUpdate(xs: seq<nat>, i: nat, v: nat)
    requires i < |xs|
    ensures Sum(xs[i := v]) + xs[i] == Sum(xs) + v
  {
    var n := |xs| - 1;
    if i < n {
      assert xs[i := v][..n] == xs[..n][i := v];
      SumUpdate(xs[..n], i, v);
    } else {
      assert xs[i := v][..n] == xs[..n];
    }
  }

  /** Entry-wise smaller sequences have smaller totals. */
  lemma {:induction false} SumMono(xs: seq<nat>, ys: seq<nat>)
    requires |xs| == |ys|
    requires forall i :: 0 <= i < |xs| ==> xs[i] <= ys[i]
    ensures Sum(xs) <= Sum(ys)
  {
    if |xs| > 0 {
      var n := |xs| - 1;
      SumMono(xs[..n], ys[..n]);
    }
  }

  /** The total of an entry-wise sum is the sum of the totals. */
  lemma {:induction false} SumAdd(xs: seq<nat>, ys: seq<nat>, zs: seq<nat>)
    requires |xs| == |ys| == |zs|
    requires forall i :: 0 <= i < |zs| ==> zs[i] == xs[i] + ys[i]
    ensures Sum(zs) == Sum(xs) + Sum(ys)
  {
    if |zs| > 0 {
      var n := |zs| - 1;
      SumAdd(xs[..n], ys[..n], zs[..n]);
    }
  }

  /** A sequence of zeros totals zero. */
  lemma {:induction false} SumZero(xs: seq<nat>)
    requires forall i :: 0 <= i < |xs| ==> xs[i] == 0
    ensures Sum(xs) == 0
  {
    if |xs| > 0 {
      SumZero(xs[..|xs| - 1]);
    }
  }

  /** The pro-rata share of every stake in `stakes`. */
  function Shares(stakes: seq<nat>, totalOut: nat, totalIn: nat): (shares: seq<nat>)
    ensures |shares| == |stakes|
  {
    seq(|stakes|, i requires 0 <= i < |stakes| => Share(stakes[i], totalOut, totalIn))
  }

  lemma {:induction false} SharesScaled(stakes: seq<nat>, totalOut: nat, totalIn: nat)
    requires totalIn > 0
    ensures Sum(Shares(stakes, totalOut, totalIn)) * totalIn <= Sum(stakes) * totalOut
  {
    if |stakes| > 0 {
      var n := |stakes| - 1;
      var shares := Shares(stakes, totalOut, totalIn);
      assert shares[..n] == Shares(stakes[..n], totalOut, totalIn);
      SharesScaled(stakes[..n], totalOut, totalIn);
      var s, x := Sum(shares[..n]), shares[n];
      var t, y := Sum(stakes[..n]), stakes[n];
      assert x * totalIn <= y * totalOut by {
        FloorBounds(y * totalOut, totalIn);
      }
      Distrib(s, x, totalIn);
      Distrib(t, y, totalOut);
    }
  }

  lemma Distrib(x: nat, y: nat, b: nat)
    ensures (x + y) * b == x * b + y * b
  {
  }

  /** Stakes that together do not exceed the pool they are measured against
      are paid at most the amount being shared out: floor division only ever
      leaves dust behind. */
  lemma SharesWithinPool(stakes: seq<nat>, totalOut: nat, totalIn: nat)
    requires Sum(stakes) <= totalIn
    ensures Sum(Shares(stakes, totalOut, totalIn)) <= totalOut
  {
    var shares := Shares(stakes, totalOut, totalIn);
    if totalIn == 0 {
      SumZero(shares);
    } else {
      SharesScaled(stakes, totalOut, totalIn);
      MulLeMono(Sum(stakes), totalIn, totalOut);
      MulLeCancel(Sum(shares), totalOut, totalIn);
    }
  }
}
