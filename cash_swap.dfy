/**
 The denomination exchange: from the last confirmed cash count, work out which
 bills go to the bank (`cash out`) and which come back (`cash in`) so that every
 denomination below the top one keeps at least its configured minimum, without
 changing what the till is worth, and record the exchange in the ledger.
 */
module CashSwap {
  import opened Results
  import opened Bills
  import opened Reconcile

  /** What the till holds of `d` once the exchange is made. */
  function Holding(target: BillVec, cashOut: BillVec, cashIn: BillVec, d: Denom): int
  {
    target.Get(d) - cashOut.Get(d) + cashIn.Get(d)
  }

  predicate NonNegative(v: BillVec)
  {
    forall d :: v.Get(d) >= 0
  }

  /** Both sides of the exchange are real bills and they are worth the same. */
  predicate Balanced(cashOut: BillVec, cashIn: BillVec)
  {
    NonNegative(cashOut) && NonNegative(cashIn) && Total(cashOut) == Total(cashIn)
  }

  /** Every denomination below the top keeps at least its minimum. */
  predicate MeetsMinimums(target: BillVec, minimums: BillVec, cashOut: BillVec, cashIn: BillVec)
  {
    forall d :: d != Top ==> Holding(target, cashOut, cashIn, d) >= minimums.Get(d)
  }

  /** The larger denomination a bill of `d` is traded up to: the first one above
      `d` on the ladder whose worth is a whole multiple of the worth of `d`. */
  function NextUp(d: Denom): Denom
    requires d != Top
  {
    match d
    case Coin => B1
    case B1 => B5
    case B5 => B10
    case B10 => B20
    case B20 => B100
    case B50 => B100
  }

  /** How many units of `d` make one `NextUp(d)`. */
  function Ratio(d: Denom): nat
    requires d != Top
  {
    match d
    case Coin => 100
    case B1 => 5
    case B5 => 2
    case B10 => 2
    case B20 => 5
    case B50 => 2
  }

  /** The ratio is exact; b20 goes to b100 five for one, b50 to b100 two for one. */
  lemma RatioExact(d: Denom)
    requires d != Top
    ensures Value(NextUp(d)) == Ratio(d) * Value(d)
    ensures Value(d) < Value(NextUp(d))
    ensures NextUp(B20) == B100 && Ratio(B20) == 5
    ensures NextUp(B50) == B100 && Ratio(B50) == 2
  {
  }

  /** No exchange pass leaves more of `d` than its minimum plus one traded-up bill's worth. */
  predicate SurplusBelowRatio(target: BillVec, minimums: BillVec, cashOut: BillVec, cashIn: BillVec)
  {
    forall d :: d != Top ==> Holding(target, cashOut, cashIn, d) < minimums.Get(d) + Ratio(d)
  }

  /** `math.floor(a / b)` for a positive divisor. */
  function FloorDiv(a: int, b: int): (q: int)
    requires b > 0
    ensures b * q <= a < b * q + b
    ensures a >= 0 ==> q >= 0
  {
    a / b
  }

  /** `math.ceil(a / b)` for a positive divisor. */
  function CeilDiv(a: int, b: int): (q: int)
    requires b > 0
    ensures b * q - b < a <= b * q
    ensures a > 0 ==> q > 0
  {
    -((-a) / b)
  }

  /** The search for the next multiple, starting one step above index `i`. */
  method NextMultiple(i: nat) returns (i2: nat, ratio: nat)
    requires i < |Ladder| - 1
    ensures i < i2 < |Ladder|
    ensures Value(Ladder[i2]) % Value(Ladder[i]) == 0
    ensures forall k :: i < k < i2 ==> Value(Ladder[k]) % Value(Ladder[i]) != 0
    ensures Value(Ladder[i2]) == ratio * Value(Ladder[i])
    ensures Ladder[i2] == NextUp(Ladder[i]) && ratio == Ratio(Ladder[i])
  {
    var key := Ladder[i];
    assert Value(Ladder[|Ladder| - 1]) % Value(key) == 0;
    i2 := i + 1;
    while Value(Ladder[i2]) % Value(key) != 0
      invariant i < i2 < |Ladder|
      invariant forall k :: i < k < i2 ==> Value(Ladder[k]) % Value(key) != 0
      decreases |Ladder| - i2
    {
      i2 := i2 + 1;
    }
    ratio := Value(Ladder[i2]) / Value(key);
    FirstMultipleIsNextUp(i, i2);
    RatioExact(key);
  }

  /** On this ladder the first whole multiple above each denomination is `NextUp`. */
  lemma FirstMultipleIsNextUp(i: nat, j: nat)
    requires i < j < |Ladder| && i < |Ladder| - 1
    requires Value(Ladder[j]) % Value(Ladder[i]) == 0
    requires forall k :: i < k < j ==> Value(Ladder[k]) % Value(Ladder[i]) != 0
    ensures Ladder[j] == NextUp(Ladder[i])
  {
    if i == 4 {
      assert Value(Ladder[5]) % Value(Ladder[4]) != 0;
    } else if j > i + 1 {
      assert Value(Ladder[i + 1]) % Value(Ladder[i]) != 0;
    }
  }

  /** One trade of `k` bills of `hi` against `ratio * k` units of `lo` moves equal worth
      in both directions, whichever side each vector is on. */
  lemma TradeIsNeutral(v: BillVec, w: BillVec, lo: Denom, hi: Denom, ratio: int, k: int)
    requires Value(hi) == ratio * Value(lo)
    ensures Total(Bump(v, hi, k)) - Total(v) == Total(Bump(w, lo, ratio * k)) - Total(w)
  {
    TotalBump(v, hi, k);
    TotalBump(w, lo, ratio * k);
    TradeWorth(lo, hi, ratio, k);
  }

  lemma TradeWorth(lo: Denom, hi: Denom, ratio: int, k: int)
    requires Value(hi) == ratio * Value(lo)
    ensures Value(hi) * k == Value(lo) * (ratio * k)
  {
  }

  /** Two b20s and one b10 going out are worth one b50 coming in. */
  lemma CombineIsNeutral(cashOut: BillVec, cashIn: BillVec, t: int)
    ensures Total(Bump(Bump(cashOut, B20, 2 * t), B10, t)) - Total(cashOut)
         == Total(Bump(cashIn, B50, t)) - Total(cashIn)
  {
    TotalBump(cashOut, B20, 2 * t);
    TotalBump(Bump(cashOut, B20, 2 * t), B10, t);
    TotalBump(cashIn, B50, t);
  }

  /** The two sides of an exchange under construction. */
  datatype Sides = Sides(cashOut: BillVec, cashIn: BillVec)

  /** The next multiple of a column lies above it on the ladder, at an exact ratio. */
  lemma NextUpAbove(i: nat)
    requires i < |Ladder| - 1
    ensures i < Index(NextUp(Ladder[i]))
    ensures Value(NextUp(Ladder[i])) == Ratio(Ladder[i]) * Value(Ladder[i])
  {
    RatioExact(Ladder[i]);
  }

  // First pass, "rob from high bills to fill short bills".

  /** Column `i` of the first pass: when what is on hand (leaving `cash_in` out) is short of
      the minimum, enough bills of the next multiple are broken to cover the shortfall. */
  function RobColumn(target: BillVec, minimums: BillVec, s: Sides, i: nat): Sides
    requires i < |Ladder| - 1
  {
    var key := Ladder[i];
    var targetValue := target.Get(key) - s.cashOut.Get(key);
    if targetValue < minimums.Get(key) then
      var transfer := CeilDiv(minimums.Get(key) - targetValue, Ratio(key));
      Sides(Bump(s.cashOut, NextUp(key), transfer), Bump(s.cashIn, key, Ratio(key) * transfer))
    else s
  }

  /** The first pass from column `i` up to the last column below the top. */
  function RobFrom(target: BillVec, minimums: BillVec, s: Sides, i: nat): Sides
    requires i <= |Ladder| - 1
    decreases |Ladder| - 1 - i
  {
    if i == |Ladder| - 1 then s else RobFrom(target, minimums, RobColumn(target, minimums, s, i), i + 1)
  }

  /** The first pass over an empty `cash_out` and `cash_in`. */
  function RobPass(target: BillVec, minimums: BillVec): Sides
  {
    RobFrom(target, minimums, Sides(Zero(), Zero()), 0)
  }

  /** State of the first pass before index `i`: the columns below `i` are filled to their
      minimums and nothing has yet come in for the columns from `i` on. */
  ghost predicate RobbedUpTo(target: BillVec, minimums: BillVec, cashOut: BillVec, cashIn: BillVec, i: int)
  {
    && Balanced(cashOut, cashIn)
    && (forall d :: Index(d) < i ==> Holding(target, cashOut, cashIn, d) >= minimums.Get(d))
    && (forall d :: Index(d) >= i ==> cashIn.Get(d) == 0)
  }

  lemma MulNonNegative(a: int, b: int)
    requires a >= 0 && b >= 0
    ensures a * b >= 0
  {
  }

  /** A short column breaks `transfer` bills of the next multiple: it reaches its minimum,
      both sides stay worth the same, and no column already filled is touched. */
  lemma RobStep(target: BillVec, minimums: BillVec, cashOut: BillVec, cashIn: BillVec,
                i: nat, i2: nat, ratio: nat, transfer: int, out1: BillVec, in1: BillVec)
    requires i < i2 < |Ladder|
    requires Value(Ladder[i2]) == ratio * Value(Ladder[i])
    requires RobbedUpTo(target, minimums, cashOut, cashIn, i)
    requires target.Get(Ladder[i]) - cashOut.Get(Ladder[i]) < minimums.Get(Ladder[i])
    requires ratio > 0
    requires transfer == CeilDiv(minimums.Get(Ladder[i]) - (target.Get(Ladder[i]) - cashOut.Get(Ladder[i])), ratio)
    requires out1 == Bump(cashOut, Ladder[i2], transfer) && in1 == Bump(cashIn, Ladder[i], ratio * transfer)
    ensures RobbedUpTo(target, minimums, out1, in1, i + 1)
  {
    var lo, hi := Ladder[i], Ladder[i2];
    assert Index(lo) == i && Index(hi) == i2;
    MulNonNegative(ratio, transfer);
    TradeIsNeutral(cashOut, cashIn, lo, hi, ratio, transfer);
    var shortfall := minimums.Get(lo) - (target.Get(lo) - cashOut.Get(lo));
    assert ratio * transfer >= shortfall;
    forall d | Index(d) < i + 1 ensures Holding(target, out1, in1, d) >= minimums.Get(d) {
      if d == lo {
        assert out1.Get(d) == cashOut.Get(d) && in1.Get(d) == ratio * transfer;
      } else {
        assert Index(d) < i && d != hi;
      }
    }
  }

  /** A column already at its minimum is left as it is and counts as filled. */
  lemma RobSkip(target: BillVec, minimums: BillVec, cashOut: BillVec, cashIn: BillVec, i: nat)
    requires i < |Ladder| - 1
    requires RobbedUpTo(target, minimums, cashOut, cashIn, i)
    requires target.Get(Ladder[i]) - cashOut.Get(Ladder[i]) >= minimums.Get(Ladder[i])
    ensures RobbedUpTo(target, minimums, cashOut, cashIn, i + 1)
  {
    assert Index(Ladder[i]) == i;
  }

  /** A short column, as the first pass trades it, counts as filled. */
  lemma RobTake(target: BillVec, minimums: BillVec, s: Sides, i: nat)
    requires i < |Ladder| - 1
    requires RobbedUpTo(target, minimums, s.cashOut, s.cashIn, i)
    requires target.Get(Ladder[i]) - s.cashOut.Get(Ladder[i]) < minimums.Get(Ladder[i])
    ensures var r := RobColumn(target, minimums, s, i); RobbedUpTo(target, minimums, r.cashOut, r.cashIn, i + 1)
  {
    var key := Ladder[i];
    NextUpAbove(i);
    var i2 := Index(NextUp(key));
    var transfer := CeilDiv(minimums.Get(key) - (target.Get(key) - s.cashOut.Get(key)), Ratio(key));
    var r := RobColumn(target, minimums, s, i);
    assert r.cashOut == Bump(s.cashOut, Ladder[i2], transfer) && r.cashIn == Bump(s.cashIn, Ladder[i], Ratio(key) * transfer);
    RobStep(target, minimums, s.cashOut, s.cashIn, i, i2, Ratio(key), transfer, r.cashOut, r.cashIn);
  }

  lemma RobColumnKeeps(target: BillVec, minimums: BillVec, s: Sides, i: nat)
    requires i < |Ladder| - 1
    requires RobbedUpTo(target, minimums, s.cashOut, s.cashIn, i)
    ensures var r := RobColumn(target, minimums, s, i); RobbedUpTo(target, minimums, r.cashOut, r.cashIn, i + 1)
  {
    if target.Get(Ladder[i]) - s.cashOut.Get(Ladder[i]) < minimums.Get(Ladder[i]) {
      RobTake(target, minimums, s, i);
    } else {
      RobSkip(target, minimums, s.cashOut, s.cashIn, i);
      assert RobColumn(target, minimums, s, i) == s;
    }
  }

  lemma {:induction false} RobFromKeeps(target: BillVec, minimums: BillVec, s: Sides, i: nat)
    requires i <= |Ladder| - 1
    requires RobbedUpTo(target, minimums, s.cashOut, s.cashIn, i)
    ensures var r := RobFrom(target, minimums, s, i); RobbedUpTo(target, minimums, r.cashOut, r.cashIn, |Ladder| - 1)
    decreases |Ladder| - 1 - i
  {
    if i < |Ladder| - 1 {
      RobColumnKeeps(target, minimums, s, i);
      RobFromKeeps(target, minimums, RobColumn(target, minimums, s, i), i + 1);
    }
  }

  /** After the first pass both sides are real bills worth the same, every denomination
      below the top holds at least its minimum, and no top bill comes in. */
  lemma RobPassMeetsMinimums(target: BillVec, minimums: BillVec)
    ensures var r := RobPass(target, minimums);
      && Balanced(r.cashOut, r.cashIn)
      && MeetsMinimums(target, minimums, r.cashOut, r.cashIn)
      && r.cashIn.Get(Top) == 0
  {
    RobFromKeeps(target, minimums, Sides(Zero(), Zero()), 0);
    var r := RobPass(target, minimums);
    forall d | d != Top ensures Holding(target, r.cashOut, r.cashIn, d) >= minimums.Get(d) {
      assert Index(d) < |Ladder| - 1;
    }
    assert Index(Top) == |Ladder| - 1;
  }

  /** First pass, in place on `cash_out` and `cash_in`. */
  method RobHighBills(target: BillVec, minimums: BillVec, cashOut: Bills, cashIn: Bills, ghost s0: Sides)
    requires cashOut != cashIn
    requires Sides(cashOut.View(), cashIn.View()) == s0
    modifies cashOut, cashIn
    ensures Sides(cashOut.View(), cashIn.View()) == RobFrom(target, minimums, s0, 0)
  {
    for i := 0 to |Ladder| - 1
      invariant RobFrom(target, minimums, s0, 0) == RobFrom(target, minimums, Sides(cashOut.View(), cashIn.View()), i)
    {
      ghost var s := Sides(cashOut.View(), cashIn.View());
      var key := Ladder[i];
      // this pass leaves cash_in out of what is on hand
      var targetValue := target.Get(key) - cashOut.Get(key);
      var minimumValue := minimums.Get(key);
      if targetValue < minimumValue {
        var i2, ratio := NextMultiple(i);
        var nextKey := Ladder[i2];
        var transfer := CeilDiv(minimumValue - targetValue, ratio);
        cashOut.AddToAttr(nextKey, transfer);
        cashIn.AddToAttr(key, ratio * transfer);
      }
      assert Sides(cashOut.View(), cashIn.View()) == RobColumn(target, minimums, s, i);
    }
  }

  // Second pass, "convert lower bills to higher bills".

  /** The b20 combine: two spare b20s and one spare b10 become one b50, as many times as
      both the spare pairs of b20s and the spare b10s allow. */
  function Combine(target: BillVec, minimums: BillVec, s: Sides): Sides
  {
    var transfer := FloorDiv(Holding(target, s.cashOut, s.cashIn, B20) - minimums.Get(B20), 2);
    var extraB10s := Holding(target, s.cashOut, s.cashIn, B10) - minimums.Get(B10);
    if extraB10s > 0 then
      var t := if transfer <= extraB10s then transfer else extraB10s;
      Sides(Bump(Bump(s.cashOut, B20, 2 * t), B10, t), Bump(s.cashIn, B50, t))
    else s
  }

  /** Column `i` of the second pass: a surplus above the minimum is traded up in whole lots
      of the ratio; in the b20 column the combine follows the trade. */
  function ConvertColumn(target: BillVec, minimums: BillVec, s: Sides, i: nat): Sides
    requires i < |Ladder| - 1
  {
    var key := Ladder[i];
    var targetValue := Holding(target, s.cashOut, s.cashIn, key);
    if targetValue > minimums.Get(key) then
      var transfer := FloorDiv(targetValue - minimums.Get(key), Ratio(key));
      var traded := Sides(Bump(s.cashOut, key, Ratio(key) * transfer), Bump(s.cashIn, NextUp(key), transfer));
      if key == B20 then Combine(target, minimums, traded) else traded
    else s
  }

  /** A surplus smaller than one lot of the ratio is not traded: the column is left as it
      is, but for the combine that follows a b20 column with some surplus. */
  lemma ConvertColumnBelowLot(target: BillVec, minimums: BillVec, s: Sides, i: nat)
    requires i < |Ladder| - 1
    requires Holding(target, s.cashOut, s.cashIn, Ladder[i]) - minimums.Get(Ladder[i]) < Ratio(Ladder[i])
    ensures ConvertColumn(target, minimums, s, i)
         == if Ladder[i] == B20 && Holding(target, s.cashOut, s.cashIn, B20) > minimums.Get(B20)
            then Combine(target, minimums, s) else s
  {
    var key := Ladder[i];
    var surplus := Holding(target, s.cashOut, s.cashIn, key) - minimums.Get(key);
    if surplus > 0 {
      assert FloorDiv(surplus, Ratio(key)) == 0;
      Ext(Bump(s.cashOut, key, 0), s.cashOut);
      Ext(Bump(s.cashIn, NextUp(key), 0), s.cashIn);
    }
  }

  /** The second pass from column `i` up to the last column below the top. */
  function ConvertFrom(target: BillVec, minimums: BillVec, s: Sides, i: nat): Sides
    requires i <= |Ladder| - 1
    decreases |Ladder| - 1 - i
  {
    if i == |Ladder| - 1 then s else ConvertFrom(target, minimums, ConvertColumn(target, minimums, s, i), i + 1)
  }

  /** No two spare b20s are left to meet a spare b10. */
  predicate NoCombineLeft(target: BillVec, minimums: BillVec, cashOut: BillVec, cashIn: BillVec)
  {
    || Holding(target, cashOut, cashIn, B20) < minimums.Get(B20) + 2
    || Holding(target, cashOut, cashIn, B10) <= minimums.Get(B10)
  }

  /** State of the second pass before index `i`: minimums still met everywhere below the
      top, and the columns below `i` keep less than one traded-up bill of surplus. */
  ghost predicate ConvertedUpTo(target: BillVec, minimums: BillVec, cashOut: BillVec, cashIn: BillVec, i: int)
  {
    && Balanced(cashOut, cashIn)
    && MeetsMinimums(target, minimums, cashOut, cashIn)
    && (forall d :: d != Top && Index(d) < i ==> Holding(target, cashOut, cashIn, d) < minimums.Get(d) + Ratio(d))
  }

  /** `ConvertedUpTo`, and once the b20 column is done, no combine is left to make. */
  ghost predicate ConvertPassUpTo(target: BillVec, minimums: BillVec, s: Sides, i: int)
  {
    && ConvertedUpTo(target, minimums, s.cashOut, s.cashIn, i)
    && (i > Index(B20) ==> NoCombineLeft(target, minimums, s.cashOut, s.cashIn))
  }

  /** A column with surplus trades `transfer` lots of `ratio` up to the next multiple. */
  lemma ConvertStep(target: BillVec, minimums: BillVec, cashOut: BillVec, cashIn: BillVec,
                    i: nat, i2: nat, ratio: nat, transfer: int, out1: BillVec, in1: BillVec)
    requires i < i2 < |Ladder|
    requires Value(Ladder[i2]) == ratio * Value(Ladder[i])
    requires ratio == Ratio(Ladder[i])
    requires ConvertedUpTo(target, minimums, cashOut, cashIn, i)
    requires Holding(target, cashOut, cashIn, Ladder[i]) > minimums.Get(Ladder[i])
    requires transfer == FloorDiv(Holding(target, cashOut, cashIn, Ladder[i]) - minimums.Get(Ladder[i]), ratio)
    requires out1 == Bump(cashOut, Ladder[i], ratio * transfer) && in1 == Bump(cashIn, Ladder[i2], transfer)
    ensures ConvertedUpTo(target, minimums, out1, in1, i + 1)
  {
    var lo, hi := Ladder[i], Ladder[i2];
    assert Index(lo) == i && Index(hi) == i2;
    MulNonNegative(ratio, transfer);
    TradeIsNeutral(cashIn, cashOut, lo, hi, ratio, transfer);
    var surplus := Holding(target, cashOut, cashIn, lo) - minimums.Get(lo);
    assert 0 <= surplus - ratio * transfer < ratio;
    forall d | d != Top ensures Holding(target, out1, in1, d) >= minimums.Get(d) {
      if d == lo {
        assert Holding(target, out1, in1, d) == Holding(target, cashOut, cashIn, d) - ratio * transfer;
      } else if d == hi {
        assert Holding(target, out1, in1, d) == Holding(target, cashOut, cashIn, d) + transfer;
      } else {
        assert Holding(target, out1, in1, d) == Holding(target, cashOut, cashIn, d);
      }
    }
    forall d | d != Top && Index(d) < i + 1
      ensures Holding(target, out1, in1, d) < minimums.Get(d) + Ratio(d)
    {
      if d == lo {
        assert Holding(target, out1, in1, d) == Holding(target, cashOut, cashIn, d) - ratio * transfer;
      } else {
        assert Index(d) < i && d != hi;
        assert Holding(target, out1, in1, d) == Holding(target, cashOut, cashIn, d);
      }
    }
  }

  /** A column with no surplus is left alone and already keeps less than one traded-up bill. */
  lemma ConvertSkip(target: BillVec, minimums: BillVec, cashOut: BillVec, cashIn: BillVec, i: nat)
    requires i < |Ladder| - 1
    requires ConvertedUpTo(target, minimums, cashOut, cashIn, i)
    requires Holding(target, cashOut, cashIn, Ladder[i]) <= minimums.Get(Ladder[i])
    ensures ConvertedUpTo(target, minimums, cashOut, cashIn, i + 1)
  {
    assert Index(Ladder[i]) == i;
  }

  /** Two spare b20s and one spare b10 become one b50, `t` times, where `t` is bounded by
      both spares: minimums and the surplus bound survive. */
  lemma CombineStep(target: BillVec, minimums: BillVec, cashOut: BillVec, cashIn: BillVec, transfer: int, t: int,
                    out1: BillVec, in1: BillVec)
    requires ConvertedUpTo(target, minimums, cashOut, cashIn, Index(B20) + 1)
    requires transfer == FloorDiv(Holding(target, cashOut, cashIn, B20) - minimums.Get(B20), 2)
    requires Holding(target, cashOut, cashIn, B10) - minimums.Get(B10) > 0
    requires t == if transfer <= Holding(target, cashOut, cashIn, B10) - minimums.Get(B10)
                  then transfer else Holding(target, cashOut, cashIn, B10) - minimums.Get(B10)
    requires out1 == Bump(Bump(cashOut, B20, 2 * t), B10, t) && in1 == Bump(cashIn, B50, t)
    ensures ConvertedUpTo(target, minimums, out1, in1, Index(B20) + 1)
  {
    CombineIsNeutral(cashOut, cashIn, t);
    assert t >= 0;
    forall d | d != Top ensures Holding(target, out1, in1, d) >= minimums.Get(d) {
      if d == B20 {
        assert Holding(target, out1, in1, d) == Holding(target, cashOut, cashIn, d) - 2 * t;
      } else if d == B10 {
        assert Holding(target, out1, in1, d) == Holding(target, cashOut, cashIn, d) - t;
      } else if d == B50 {
        assert Holding(target, out1, in1, d) == Holding(target, cashOut, cashIn, d) + t;
      } else {
        assert Holding(target, out1, in1, d) == Holding(target, cashOut, cashIn, d);
      }
    }
    forall d | d != Top && Index(d) < Index(B20) + 1
      ensures Holding(target, out1, in1, d) < minimums.Get(d) + Ratio(d)
    {
      assert d != B50;
      assert Holding(target, out1, in1, d) <= Holding(target, cashOut, cashIn, d);
    }
  }

  /** The combine keeps the second pass's guarantees and leaves no combine to make: fewer
      than two spare b20s, or no spare b10. */
  lemma CombineKeeps(target: BillVec, minimums: BillVec, s: Sides)
    requires ConvertedUpTo(target, minimums, s.cashOut, s.cashIn, Index(B20) + 1)
    ensures var r := Combine(target, minimums, s);
      && ConvertedUpTo(target, minimums, r.cashOut, r.cashIn, Index(B20) + 1)
      && NoCombineLeft(target, minimums, r.cashOut, r.cashIn)
  {
    var transfer := FloorDiv(Holding(target, s.cashOut, s.cashIn, B20) - minimums.Get(B20), 2);
    var extraB10s := Holding(target, s.cashOut, s.cashIn, B10) - minimums.Get(B10);
    if extraB10s > 0 {
      var t := if transfer <= extraB10s then transfer else extraB10s;
      var r := Combine(target, minimums, s);
      assert r.cashOut == Bump(Bump(s.cashOut, B20, 2 * t), B10, t) && r.cashIn == Bump(s.cashIn, B50, t);
      CombineStep(target, minimums, s.cashOut, s.cashIn, transfer, t, r.cashOut, r.cashIn);
      assert Holding(target, r.cashOut, r.cashIn, B20) == Holding(target, s.cashOut, s.cashIn, B20) - 2 * t;
      assert Holding(target, r.cashOut, r.cashIn, B10) == Holding(target, s.cashOut, s.cashIn, B10) - t;
    }
  }

  lemma ConvertColumnKeeps(target: BillVec, minimums: BillVec, s: Sides, i: nat)
    requires i < |Ladder| - 1
    requires ConvertPassUpTo(target, minimums, s, i)
    ensures ConvertPassUpTo(target, minimums, ConvertColumn(target, minimums, s, i), i + 1)
  {
    var key := Ladder[i];
    var targetValue := Holding(target, s.cashOut, s.cashIn, key);
    if targetValue > minimums.Get(key) {
      var transfer := FloorDiv(targetValue - minimums.Get(key), Ratio(key));
      var traded := Sides(Bump(s.cashOut, key, Ratio(key) * transfer), Bump(s.cashIn, NextUp(key), transfer));
      assert ConvertColumn(target, minimums, s, i) == if key == B20 then Combine(target, minimums, traded) else traded;
      ConvertTradeKeeps(target, minimums, s, i, transfer, traded);
    } else {
      assert ConvertColumn(target, minimums, s, i) == s;
      ConvertSkip(target, minimums, s.cashOut, s.cashIn, i);
    }
  }

  /** A column with a surplus: the trade, and the combine after a b20 column, keep the
      invariant of the second pass. */
  lemma ConvertTradeKeeps(target: BillVec, minimums: BillVec, s: Sides, i: nat, transfer: int, traded: Sides)
    requires i < |Ladder| - 1
    requires ConvertPassUpTo(target, minimums, s, i)
    requires Holding(target, s.cashOut, s.cashIn, Ladder[i]) > minimums.Get(Ladder[i])
    requires transfer == FloorDiv(Holding(target, s.cashOut, s.cashIn, Ladder[i]) - minimums.Get(Ladder[i]), Ratio(Ladder[i]))
    requires traded == Sides(Bump(s.cashOut, Ladder[i], Ratio(Ladder[i]) * transfer), Bump(s.cashIn, NextUp(Ladder[i]), transfer))
    ensures ConvertPassUpTo(target, minimums, if Ladder[i] == B20 then Combine(target, minimums, traded) else traded, i + 1)
  {
    var key := Ladder[i];
    NextUpAbove(i);
    assert Index(key) == i;
    var i2 := Index(NextUp(key));
    ConvertStep(target, minimums, s.cashOut, s.cashIn, i, i2, Ratio(key), transfer, traded.cashOut, traded.cashIn);
    if key == B20 {
      CombineKeeps(target, minimums, traded);
    } else if i > Index(B20) {
      TradeLeavesCombine(target, minimums, s, i, i2, Ratio(key) * transfer, transfer);
    }
  }

  /** A trade above the b20 column touches neither b20 nor b10. */
  lemma TradeLeavesCombine(target: BillVec, minimums: BillVec, s: Sides, i: nat, i2: nat, k: int, n: int)
    requires Index(B20) < i < i2 < |Ladder|
    requires NoCombineLeft(target, minimums, s.cashOut, s.cashIn)
    ensures NoCombineLeft(target, minimums, Bump(s.cashOut, Ladder[i], k), Bump(s.cashIn, Ladder[i2], n))
  {
    assert Ladder[i] != B20 && Ladder[i] != B10 && Ladder[i2] != B20 && Ladder[i2] != B10;
  }

  lemma {:induction false} ConvertFromKeeps(target: BillVec, minimums: BillVec, s: Sides, i: nat)
    requires i <= |Ladder| - 1
    requires ConvertPassUpTo(target, minimums, s, i)
    ensures ConvertPassUpTo(target, minimums, ConvertFrom(target, minimums, s, i), |Ladder| - 1)
    decreases |Ladder| - 1 - i
  {
    if i < |Ladder| - 1 {
      ConvertColumnKeeps(target, minimums, s, i);
      ConvertFromKeeps(target, minimums, ConvertColumn(target, minimums, s, i), i + 1);
    }
  }

  /** After the second pass the first pass's guarantees still hold, no denomination below
      the top keeps a whole traded-up bill of surplus, and no combine is left to make. */
  lemma ConvertPassGoals(target: BillVec, minimums: BillVec, s: Sides)
    requires Balanced(s.cashOut, s.cashIn)
    requires MeetsMinimums(target, minimums, s.cashOut, s.cashIn)
    ensures var r := ConvertFrom(target, minimums, s, 0);
      && Balanced(r.cashOut, r.cashIn)
      && MeetsMinimums(target, minimums, r.cashOut, r.cashIn)
      && SurplusBelowRatio(target, minimums, r.cashOut, r.cashIn)
      && NoCombineLeft(target, minimums, r.cashOut, r.cashIn)
  {
    ConvertFromKeeps(target, minimums, s, 0);
    var r := ConvertFrom(target, minimums, s, 0);
    forall d | d != Top ensures Holding(target, r.cashOut, r.cashIn, d) < minimums.Get(d) + Ratio(d) {
      assert Index(d) < |Ladder| - 1;
    }
  }

  /** The b20 combine, in place. */
  method CombineTwenties(target: BillVec, minimums: BillVec, cashOut: Bills, cashIn: Bills)
    requires cashOut != cashIn
    modifies cashOut, cashIn
    ensures Sides(cashOut.View(), cashIn.View()) == Combine(target, minimums, old(Sides(cashOut.View(), cashIn.View())))
  {
    var key := B20;
    var minimumValue := minimums.Get(key);
    var targetValue := target.Get(key) - cashOut.Get(key) + cashIn.Get(key);
    var transfer := FloorDiv(targetValue - minimumValue, 2);
    var extraB10s := (target.b10 - cashOut.b10 + cashIn.b10) - minimums.b10;
    if extraB10s > 0 {
      var t := if transfer <= extraB10s then transfer else extraB10s;
      ghost var out1, in1 := cashOut.View(), cashIn.View();
      cashOut.b20 := cashOut.b20 + 2 * t;
      cashOut.b10 := cashOut.b10 + t;
      cashIn.b50 := cashIn.b50 + t;
      assert cashOut.View() == Bump(Bump(out1, B20, 2 * t), B10, t);
      assert cashIn.View() == Bump(in1, B50, t);
    }
  }

  /** Column `i` of the second pass, in place: the surplus over the minimum is traded up in
      whole lots of the ratio, and a b20 column with a surplus is then combined. */
  method ConvertColumnInPlace(target: BillVec, minimums: BillVec, cashOut: Bills, cashIn: Bills, i: nat)
    requires i < |Ladder| - 1
    requires cashOut != cashIn
    modifies cashOut, cashIn
    ensures Sides(cashOut.View(), cashIn.View()) == ConvertColumn(target, minimums, old(Sides(cashOut.View(), cashIn.View())), i)
  {
    var key := Ladder[i];
    var targetValue := target.Get(key) - cashOut.Get(key) + cashIn.Get(key);
    var minimumValue := minimums.Get(key);
    if targetValue > minimumValue {
      var i2, ratio := NextMultiple(i);
      var nextKey := Ladder[i2];
      var transfer := FloorDiv(targetValue - minimumValue, ratio);
      cashOut.AddToAttr(key, ratio * transfer);
      cashIn.AddToAttr(nextKey, transfer);
      if key == B20 {
        CombineTwenties(target, minimums, cashOut, cashIn);
      }
    }
  }

  /** `s` is where the second pass stands after its first `i` columns from `s0`. */
  ghost predicate ConvertRest(target: BillVec, minimums: BillVec, s0: Sides, s: Sides, i: nat)
    requires i <= |Ladder| - 1
  {
    ConvertFrom(target, minimums, s0, 0) == ConvertFrom(target, minimums, s, i)
  }

  lemma ConvertRestStep(target: BillVec, minimums: BillVec, s0: Sides, s: Sides, i: nat)
    requires i < |Ladder| - 1
    requires ConvertRest(target, minimums, s0, s, i)
    ensures ConvertRest(target, minimums, s0, ConvertColumn(target, minimums, s, i), i + 1)
  {
  }

  lemma ConvertRestDone(target: BillVec, minimums: BillVec, s0: Sides, s: Sides)
    requires ConvertRest(target, minimums, s0, s, |Ladder| - 1)
    ensures s == ConvertFrom(target, minimums, s0, 0)
  {
  }

  /** Second pass, in place on `cash_out` and `cash_in`. */
  method ConvertUp(target: BillVec, minimums: BillVec, cashOut: Bills, cashIn: Bills, ghost s0: Sides)
    requires cashOut != cashIn
    requires Sides(cashOut.View(), cashIn.View()) == s0
    modifies cashOut, cashIn
    ensures Sides(cashOut.View(), cashIn.View()) == ConvertFrom(target, minimums, s0, 0)
  {
    ghost var s := s0;
    for i := 0 to |Ladder| - 1
      invariant Sides(cashOut.View(), cashIn.View()) == s
      invariant ConvertRest(target, minimums, s0, s, i)
    {
      ConvertColumnInPlace(target, minimums, cashOut, cashIn, i);
      ConvertRestStep(target, minimums, s0, s, i);
      s := ConvertColumn(target, minimums, s, i);
    }
    ConvertRestDone(target, minimums, s0, s);
  }

  // Third pass, normalisation.

  /** Column `d` of the third pass: the smaller side is taken off the larger and zeroed. */
  function CancelColumn(s: Sides, d: Denom): Sides
  {
    if s.cashOut.Get(d) >= s.cashIn.Get(d) then
      Sides(Bump(s.cashOut, d, -s.cashIn.Get(d)), s.cashIn.With(d, 0))
    else if s.cashIn.Get(d) >= s.cashOut.Get(d) then
      Sides(s.cashOut.With(d, 0), Bump(s.cashIn, d, -s.cashOut.Get(d)))
    else s
  }

  /** The third pass from column `i` to the top. */
  function NormalizeFrom(s: Sides, i: nat): Sides
    requires i <= |Ladder|
    decreases |Ladder| - i
  {
    if i == |Ladder| then s else NormalizeFrom(CancelColumn(s, Ladder[i]), i + 1)
  }

  /** State of the third pass before index `i`: both sides non-negative, the net exchange
      still `net`, and the columns below `i` flowing one way only. */
  ghost predicate NormalizedUpTo(s: Sides, net: BillVec, i: int)
  {
    && NonNegative(s.cashOut) && NonNegative(s.cashIn)
    && Sub(s.cashIn, s.cashOut) == net
    && (forall d :: Index(d) < i ==> s.cashOut.Get(d) == 0 || s.cashIn.Get(d) == 0)
  }

  /** Cancelling `d` between the two sides keeps their difference and leaves one side empty. */
  lemma CancelStep(cashOut: BillVec, cashIn: BillVec, d: Denom)
    ensures cashOut.Get(d) >= cashIn.Get(d) ==>
      Sub(cashIn.With(d, 0), Bump(cashOut, d, -cashIn.Get(d))) == Sub(cashIn, cashOut)
    ensures cashIn.Get(d) >= cashOut.Get(d) ==>
      Sub(Bump(cashIn, d, -cashOut.Get(d)), cashOut.With(d, 0)) == Sub(cashIn, cashOut)
  {
    if cashOut.Get(d) >= cashIn.Get(d) {
      Ext(Sub(cashIn.With(d, 0), Bump(cashOut, d, -cashIn.Get(d))), Sub(cashIn, cashOut));
    }
    if cashIn.Get(d) >= cashOut.Get(d) {
      Ext(Sub(Bump(cashIn, d, -cashOut.Get(d)), cashOut.With(d, 0)), Sub(cashIn, cashOut));
    }
  }

  lemma CancelColumnKeeps(s: Sides, net: BillVec, i: nat)
    requires i < |Ladder|
    requires NormalizedUpTo(s, net, i)
    ensures NormalizedUpTo(CancelColumn(s, Ladder[i]), net, i + 1)
  {
    var d := Ladder[i];
    assert Index(d) == i;
    CancelStep(s.cashOut, s.cashIn, d);
    var r := CancelColumn(s, d);
    forall e ensures r.cashOut.Get(e) >= 0 && r.cashIn.Get(e) >= 0 {
      if e != d {
        assert r.cashOut.Get(e) == s.cashOut.Get(e) && r.cashIn.Get(e) == s.cashIn.Get(e);
      }
    }
    forall e | Index(e) < i + 1 ensures r.cashOut.Get(e) == 0 || r.cashIn.Get(e) == 0 {
      if e != d {
        assert Index(e) < i;
        assert r.cashOut.Get(e) == s.cashOut.Get(e) && r.cashIn.Get(e) == s.cashIn.Get(e);
      }
    }
  }

  lemma {:induction false} NormalizeFromKeeps(s: Sides, net: BillVec, i: nat)
    requires i <= |Ladder|
    requires NormalizedUpTo(s, net, i)
    ensures NormalizedUpTo(NormalizeFrom(s, i), net, |Ladder|)
    decreases |Ladder| - i
  {
    if i < |Ladder| {
      CancelColumnKeeps(s, net, i);
      NormalizeFromKeeps(CancelColumn(s, Ladder[i]), net, i + 1);
    }
  }

  /** After the third pass both sides are still non-negative, `cash_in − cash_out` is
      unchanged in every column, and no denomination both leaves and enters the till. */
  lemma NormalizeGoals(s: Sides)
    requires NonNegative(s.cashOut) && NonNegative(s.cashIn)
    ensures var r := NormalizeFrom(s, 0);
      && NonNegative(r.cashOut) && NonNegative(r.cashIn)
      && Sub(r.cashIn, r.cashOut) == Sub(s.cashIn, s.cashOut)
      && (forall d :: r.cashOut.Get(d) == 0 || r.cashIn.Get(d) == 0)
  {
    NormalizeFromKeeps(s, Sub(s.cashIn, s.cashOut), 0);
  }

  /** A column that already flows one way only is left as it is. */
  lemma CancelColumnIdle(s: Sides, d: Denom)
    requires s.cashOut.Get(d) >= 0 && s.cashIn.Get(d) >= 0
    requires s.cashOut.Get(d) == 0 || s.cashIn.Get(d) == 0
    ensures CancelColumn(s, d) == s
  {
    if s.cashOut.Get(d) >= s.cashIn.Get(d) {
      Ext(Bump(s.cashOut, d, -s.cashIn.Get(d)), s.cashOut);
      Ext(s.cashIn.With(d, 0), s.cashIn);
    } else {
      Ext(s.cashOut.With(d, 0), s.cashOut);
      Ext(Bump(s.cashIn, d, -s.cashOut.Get(d)), s.cashIn);
    }
  }

  /** The third pass changes nothing on an exchange that is already one-way in every column. */
  lemma {:induction false} NormalizeFromIdle(s: Sides, i: nat)
    requires i <= |Ladder|
    requires NonNegative(s.cashOut) && NonNegative(s.cashIn)
    requires forall d :: s.cashOut.Get(d) == 0 || s.cashIn.Get(d) == 0
    ensures NormalizeFrom(s, i) == s
    decreases |Ladder| - i
  {
    if i < |Ladder| {
      CancelColumnIdle(s, Ladder[i]);
      NormalizeFromIdle(s, i + 1);
    }
  }

  /** Running the third pass twice is the same as running it once. */
  lemma NormalizeIdempotent(s: Sides)
    requires NonNegative(s.cashOut) && NonNegative(s.cashIn)
    ensures NormalizeFrom(NormalizeFrom(s, 0), 0) == NormalizeFrom(s, 0)
  {
    NormalizeGoals(s);
    NormalizeFromIdle(NormalizeFrom(s, 0), 0);
  }

  /** One column of the third pass, in place: the smaller side is cancelled against the larger. */
  method CancelInPlace(cashOut: Bills, cashIn: Bills, bill: Denom)
    requires cashOut != cashIn
    modifies cashOut, cashIn
    ensures Sides(cashOut.View(), cashIn.View()) == CancelColumn(old(Sides(cashOut.View(), cashIn.View())), bill)
  {
    if cashOut.Get(bill) >= cashIn.Get(bill) {
      cashOut.SubFromAttr(bill, cashIn.Get(bill));
      cashIn.SetAttr(bill, 0);
    } else if cashIn.Get(bill) >= cashOut.Get(bill) {
      cashIn.SubFromAttr(bill, cashOut.Get(bill));
      cashOut.SetAttr(bill, 0);
    }
  }

  /** Third pass, in place on `cash_out` and `cash_in`. */
  method Normalize(cashOut: Bills, cashIn: Bills, ghost s0: Sides)
    requires cashOut != cashIn
    requires Sides(cashOut.View(), cashIn.View()) == s0
    modifies cashOut, cashIn
    ensures Sides(cashOut.View(), cashIn.View()) == NormalizeFrom(s0, 0)
  {
    ghost var s := s0;
    for i := 0 to |Ladder|
      invariant Sides(cashOut.View(), cashIn.View()) == s
      invariant NormalizeFrom(s0, 0) == NormalizeFrom(s, i)
    {
      CancelInPlace(cashOut, cashIn, Ladder[i]);
      s := CancelColumn(s, Ladder[i]);
    }
  }


  /** Moving the same amount of a denomination off both sides changes neither what the
      till ends up holding nor the difference in worth between the two sides. */
  lemma SameNetSameHolding(target: BillVec, cashOut: BillVec, cashIn: BillVec, out0: BillVec, in0: BillVec)
    requires Sub(cashIn, cashOut) == Sub(in0, out0)
    ensures forall d :: Holding(target, cashOut, cashIn, d) == Holding(target, out0, in0, d)
    ensures Total(cashIn) - Total(cashOut) == Total(in0) - Total(out0)
  {
    TotalSub(cashIn, cashOut);
    TotalSub(in0, out0);
    forall d ensures Holding(target, cashOut, cashIn, d) == Holding(target, out0, in0, d) {
      assert Sub(cashIn, cashOut).Get(d) == Sub(in0, out0).Get(d);
    }
  }

  /** The exchange the three passes compute for a till holding `target`. */
  function ExchangeFor(target: BillVec, minimums: BillVec): Sides
  {
    NormalizeFrom(ConvertFrom(target, minimums, RobPass(target, minimums), 0), 0)
  }

  /** What the exchange promises: both sides are real bills worth the same, each denomination
      flows one way only, every denomination below the top keeps at least its minimum and
      less than one traded-up bill of surplus, and no b20/b10 combine is left to make. */
  lemma ExchangeGoals(target: BillVec, minimums: BillVec)
    ensures var x := ExchangeFor(target, minimums);
      && NonNegative(x.cashOut) && NonNegative(x.cashIn)
      && Total(x.cashIn) == Total(x.cashOut)
      && (forall d :: x.cashOut.Get(d) == 0 || x.cashIn.Get(d) == 0)
      && MeetsMinimums(target, minimums, x.cashOut, x.cashIn)
      && SurplusBelowRatio(target, minimums, x.cashOut, x.cashIn)
      && NoCombineLeft(target, minimums, x.cashOut, x.cashIn)
  {
    var a := RobPass(target, minimums);
    RobPassMeetsMinimums(target, minimums);
    var b := ConvertFrom(target, minimums, a, 0);
    ConvertPassGoals(target, minimums, a);
    NormalizeGoals(b);
    var x := NormalizeFrom(b, 0);
    SameNetSameHolding(target, x.cashOut, x.cashIn, b.cashOut, b.cashIn);
  }

  /** The three passes over fresh `cash_out` and `cash_in` objects. */
  method ComputeExchange(target: BillVec, minimums: BillVec) returns (cashOut: BillVec, cashIn: BillVec)
    ensures Sides(cashOut, cashIn) == ExchangeFor(target, minimums)
  {
    var outBills := new Bills(Zero());
    var inBills := new Bills(Zero());
    RobHighBills(target, minimums, outBills, inBills, Sides(Zero(), Zero()));
    ConvertUp(target, minimums, outBills, inBills, RobPass(target, minimums));
    Normalize(outBills, inBills, ConvertFrom(target, minimums, RobPass(target, minimums), 0));
    cashOut, cashIn := outBills.View(), inBills.View();
  }

  /** `starts`: the sum of every "start" row of the Starts table. */
  method SumStartVectors(starts: seq<StartRow>) returns (sum: BillVec)
    ensures sum == SumStarts(starts)
  {
    var acc := new Bills(Zero());
    for i := 0 to |starts|
      invariant acc.View() == SumStarts(starts[..i])
    {
      assert starts[..i + 1][..i] == starts[..i];
      if starts[i].detail == "start" {
        acc.IAdd(starts[i].bills);
      }
    }
    assert starts[..|starts|] == starts;
    sum := acc.View();
  }

  datatype SwapError = EmptyLedger | LastNotCash(account: string) | LastNotWithStarts(detail: string) | NoMinimums

  /** The two exchange vectors and the two balances that follow from them. */
  datatype Exchange = Exchange(cashOut: BillVec, cashIn: BillVec, finalNoStarts: BillVec, finalWithStarts: BillVec)

  /** The four rows a successful run appends, all dated `today`. */
  function SwapRows(today: Date, x: Exchange): seq<Entry>
  {
    [ Entry(today, "cash", "cash out", x.cashOut, 0),
      Entry(today, "cash", "cash in", x.cashIn, 0),
      Entry(today, "cash", "w/o starts", x.finalNoStarts, 0),
      Entry(today, "cash", "w/starts", x.finalWithStarts, 0) ]
  }

  /** What the exchange promises, for a till last counted at `withStarts` whose start
      vectors add up to `startSum`. */
  predicate ExchangeHolds(withStarts: BillVec, startSum: BillVec, minimums: BillVec, x: Exchange)
  {
    var initial := Sub(withStarts, startSum);
    && Sides(x.cashOut, x.cashIn) == ExchangeFor(initial, minimums)
    && NonNegative(x.cashOut) && NonNegative(x.cashIn)
    && Total(x.cashIn) == Total(x.cashOut)
    && (forall d :: x.cashOut.Get(d) == 0 || x.cashIn.Get(d) == 0)
    && MeetsMinimums(initial, minimums, x.cashOut, x.cashIn)
    && SurplusBelowRatio(initial, minimums, x.cashOut, x.cashIn)
    && NoCombineLeft(initial, minimums, x.cashOut, x.cashIn)
    && (forall d :: x.finalNoStarts.Get(d) == Holding(initial, x.cashOut, x.cashIn, d))
    && Total(x.finalNoStarts) == Total(initial)
    && x.finalWithStarts == Add(x.finalNoStarts, startSum)
  }

  /** The exchange the passes compute, with the final balances built from it as the tool
      builds them, keeps every promise of `ExchangeHolds`; in particular the checks that
      both sides and the balance before and after are worth the same cannot fail. */
  lemma ExchangeHoldsFor(withStarts: BillVec, startSum: BillVec, minimums: BillVec, cashOut: BillVec, cashIn: BillVec)
    requires Sides(cashOut, cashIn) == ExchangeFor(Sub(withStarts, startSum), minimums)
    ensures var initial := Sub(withStarts, startSum);
      var finalNoStarts := Add(Sub(initial, cashOut), cashIn);
      ExchangeHolds(withStarts, startSum, minimums, Exchange(cashOut, cashIn, finalNoStarts, Add(finalNoStarts, startSum)))
  {
    var initial := Sub(withStarts, startSum);
    ExchangeGoals(initial, minimums);
    assert cashOut == ExchangeFor(initial, minimums).cashOut && cashIn == ExchangeFor(initial, minimums).cashIn;
    FinalBalance(initial, cashOut, cashIn);
  }

  /** `initial − cash_out + cash_in` holds what the exchange leaves in every column, and
      when both sides are worth the same it is worth what `initial` was. */
  lemma FinalBalance(initial: BillVec, cashOut: BillVec, cashIn: BillVec)
    requires Total(cashIn) == Total(cashOut)
    ensures forall d :: Add(Sub(initial, cashOut), cashIn).Get(d) == Holding(initial, cashOut, cashIn, d)
    ensures Total(Add(Sub(initial, cashOut), cashIn)) == Total(initial)
  {
    TotalAdd(Sub(initial, cashOut), cashIn);
    TotalSub(initial, cashOut);
  }

  /** Four single-row appends append the four rows in order. */
  lemma AppendFour(rows: seq<Entry>, added: seq<Entry>)
    requires |added| == 4
    ensures rows + [added[0]] + [added[1]] + [added[2]] + [added[3]] == rows + added
  {
    assert added == [added[0], added[1], added[2], added[3]];
  }

  /** One run of the exchange tool against the ledger. */
  method Run(ledger: ReconcileTable, starts: seq<StartRow>, today: Date) returns (r: Result<Exchange, SwapError>)
    modifies ledger
    ensures r == Failure(EmptyLedger) <==> old(ledger.rows) == []
    ensures r.Success? <==> old(ledger.rows) != [] && IsSnapshot(old(ledger.rows)[|old(ledger.rows)| - 1])
                            && FindStart(starts, "cash", "minimums").Some?
    ensures r.Failure? ==> ledger.rows == old(ledger.rows)
    ensures r.Success? ==> ledger.rows == old(ledger.rows) + SwapRows(today, r.value)
    ensures r.Success? ==> ExchangeHolds(old(ledger.rows)[|old(ledger.rows)| - 1].bills, SumStarts(starts),
                                         FindStart(starts, "cash", "minimums").value, r.value)
  {
    if ledger.rows == [] {
      return Failure(EmptyLedger);
    }
    var lastRecon := ledger.rows[|ledger.rows| - 1];
    if lastRecon.account != "cash" {
      return Failure(LastNotCash(lastRecon.account));
    }
    if lastRecon.detail != "w/starts" {
      return Failure(LastNotWithStarts(lastRecon.detail));
    }
    var initialWithStarts := lastRecon.bills;
    var startsSum := SumStartVectors(starts);
    var initialBalance := Sub(initialWithStarts, startsSum);
    var target := initialBalance;
    var found := FindStart(starts, "cash", "minimums");
    if found.None? {
      return Failure(NoMinimums);
    }
    var endingMinimums := found.value;

    var cashOut, cashIn := ComputeExchange(target, endingMinimums);
    ghost var rows0 := ledger.rows;

    ledger.Insert(Entry(today, "cash", "cash out", cashOut, 0));
    ledger.Insert(Entry(today, "cash", "cash in", cashIn, 0));

    var finalNoStarts := Add(Sub(initialBalance, cashOut), cashIn);

    ledger.Insert(Entry(today, "cash", "w/o starts", finalNoStarts, 0));
    var finalWithStarts := Add(finalNoStarts, startsSum);
    ledger.Insert(Entry(today, "cash", "w/starts", finalWithStarts, 0));
    r := Success(Exchange(cashOut, cashIn, finalNoStarts, finalWithStarts));
    ghost var added := SwapRows(today, r.value);
    assert ledger.rows == rows0 + [added[0]] + [added[1]] + [added[2]] + [added[3]];
    AppendFour(rows0, added);
    ExchangeHoldsFor(initialWithStarts, startsSum, endingMinimums, cashOut, cashIn);
  }
}
