/**
 The fixed ladder of till denominations and the bill vector over it: the value
 view (`BillVec`, what `__add__`, `__sub__` and `copy` produce) and the mutable
 object (`Bills`, what `+=`, `-=`, `add_to_attr` and `sub_from_attr` update).

 Money is exact: the coin column holds cents, every bill column holds a count of
 bills, so one unit of coin is worth 1 cent and one bN bill is worth 100 * N cents.
 */
module Bills {

  /** The seven stored bill columns, cheapest first. */
  datatype Denom = Coin | B1 | B5 | B10 | B20 | B50 | B100

  /** The stored columns in ascending order of worth: the order both exchange passes walk. */
  const Ladder: seq<Denom> := [Coin, B1, B5, B10, B20, B50, B100]

  /** The most valuable denomination; the exchange passes stop short of it. */
  const Top: Denom := B100

  /** Worth, in cents, of one unit of a column. */
  function Value(d: Denom): nat
  {
    match d
    case Coin => 1
    case B1 => 100
    case B5 => 500
    case B10 => 1000
    case B20 => 2000
    case B50 => 5000
    case B100 => 10000
  }

  /** Position of a denomination on the ladder. */
  function Index(d: Denom): (i: nat)
    ensures i < |Ladder| && Ladder[i] == d
    ensures forall j :: 0 <= j < |Ladder| && Ladder[j] == d ==> j == i
  {
    match d
    case Coin => 0
    case B1 => 1
    case B5 => 2
    case B10 => 3
    case B20 => 4
    case B50 => 5
    case B100 => 6
  }

  /** No denomination occurs twice in `ds`. */
  ghost predicate Distinct(ds: seq<Denom>)
  {
    forall i, j :: 0 <= i < j < |ds| ==> ds[i] != ds[j]
  }

  /** The ladder holds every denomination once, in strictly ascending worth;
      a bill's worth is its face value in dollars and a coin unit is one cent. */
  lemma LadderAscending()
    ensures forall d: Denom :: d in Ladder
    ensures Distinct(Ladder)
    ensures forall i, j :: 0 <= i < j < |Ladder| ==> Value(Ladder[i]) < Value(Ladder[j])
    ensures Value(Coin) == 1
    ensures Value(B1) == 100 * 1 && Value(B5) == 100 * 5 && Value(B10) == 100 * 10
    ensures Value(B20) == 100 * 20 && Value(B50) == 100 * 50 && Value(B100) == 100 * 100
  {
    forall d: Denom ensures d in Ladder {
      assert Ladder[Index(d)] == d;
    }
  }

  /** A count for each of the seven stored columns. */
  datatype BillVec = BillVec(coin: int, b1: int, b5: int, b10: int, b20: int, b50: int, b100: int)
  {
    /** The count held in column `d` (`getattr`). */
    function Get(d: Denom): int
    {
      match d
      case Coin => coin
      case B1 => b1
      case B5 => b5
      case B10 => b10
      case B20 => b20
      case B50 => b50
      case B100 => b100
    }

    /** This vector with column `d` replaced by `n` (`setattr` on a copy). */
    function With(d: Denom, n: int): (r: BillVec)
      ensures r.Get(d) == n
      ensures forall e :: e != d ==> r.Get(e) == Get(e)
    {
      match d
      case Coin => this.(coin := n)
      case B1 => this.(b1 := n)
      case B5 => this.(b5 := n)
      case B10 => this.(b10 := n)
      case B20 => this.(b20 := n)
      case B50 => this.(b50 := n)
      case B100 => this.(b100 := n)
    }
  }

  /** The empty vector, `bills()`: every column defaults to zero. */
  function Zero(): (z: BillVec)
    ensures forall d :: z.Get(d) == 0
  {
    BillVec(0, 0, 0, 0, 0, 0, 0)
  }

  /** `v` with `n` more units of `d`: what `add_to_attr(d, n)` leaves behind. */
  function Bump(v: BillVec, d: Denom, n: int): (r: BillVec)
    ensures r.Get(d) == v.Get(d) + n
    ensures forall e :: e != d ==> r.Get(e) == v.Get(e)
  {
    v.With(d, v.Get(d) + n)
  }

  /** `a + b`: a new vector, column by column. */
  function Add(a: BillVec, b: BillVec): (r: BillVec)
    ensures forall d :: r.Get(d) == a.Get(d) + b.Get(d)
  {
    BillVec(a.coin + b.coin, a.b1 + b.b1, a.b5 + b.b5, a.b10 + b.b10,
            a.b20 + b.b20, a.b50 + b.b50, a.b100 + b.b100)
  }

  /** `a - b`: a new vector, column by column. */
  function Sub(a: BillVec, b: BillVec): (r: BillVec)
    ensures forall d :: r.Get(d) == a.Get(d) - b.Get(d)
  {
    BillVec(a.coin - b.coin, a.b1 - b.b1, a.b5 - b.b5, a.b10 - b.b10,
            a.b20 - b.b20, a.b50 - b.b50, a.b100 - b.b100)
  }

  /** Two vectors that agree on every column are the same vector. */
  lemma Ext(a: BillVec, b: BillVec)
    requires forall d :: a.Get(d) == b.Get(d)
    ensures a == b
  {
    assert a.Get(Coin) == b.Get(Coin) && a.Get(B1) == b.Get(B1) && a.Get(B5) == b.Get(B5);
    assert a.Get(B10) == b.Get(B10) && a.Get(B20) == b.Get(B20);
    assert a.Get(B50) == b.Get(B50) && a.Get(B100) == b.Get(B100);
  }

  /** Subtracting what was added restores `a`: `(a + b) - b == a`. */
  lemma AddSubInverse(a: BillVec, b: BillVec)
    ensures Sub(Add(a, b), b) == a
  {
    Ext(Sub(Add(a, b), b), a);
  }

  /** Adding back what was subtracted restores `a`: `(a - b) + b == a`. */
  lemma SubAddInverse(a: BillVec, b: BillVec)
    ensures Add(Sub(a, b), b) == a
  {
    Ext(Add(Sub(a, b), b), a);
  }

  /** Taking `s` and then `x` away is taking `s + x` away. */
  lemma SubSub(a: BillVec, s: BillVec, x: BillVec)
    ensures Sub(Sub(a, s), x) == Sub(a, Add(s, x))
  {
    Ext(Sub(Sub(a, s), x), Sub(a, Add(s, x)));
  }

  /** Taking nothing away changes nothing. */
  lemma SubZero(a: BillVec)
    ensures Sub(a, Zero()) == a
  {
    Ext(Sub(a, Zero()), a);
  }

  /** Worth of `v` over the columns `ds`: the sum of value times count. */
  function Weighted(v: BillVec, ds: seq<Denom>): int
    decreases |ds|
  {
    if ds == [] then 0 else Value(ds[0]) * v.Get(ds[0]) + Weighted(v, ds[1..])
  }

  /** The derived `total` column, in cents: value times count over the seven stored columns. */
  function Total(v: BillVec): int
  {
    Weighted(v, Ladder)
  }

  /** Over columns holding no negative count the worth is non-negative, and it is zero
      exactly when every one of those columns is empty. */
  lemma {:induction false} WeightedNonNegative(v: BillVec, ds: seq<Denom>)
    requires forall i :: 0 <= i < |ds| ==> v.Get(ds[i]) >= 0
    ensures Weighted(v, ds) >= 0
    ensures Weighted(v, ds) == 0 <==> forall i :: 0 <= i < |ds| ==> v.Get(ds[i]) == 0
    decreases |ds|
  {
    if ds != [] {
      var n := v.Get(ds[0]);
      assert n > 0 ==> Value(ds[0]) * n >= Value(ds[0]);
      assert forall i :: 1 <= i < |ds| ==> ds[1..][i - 1] == ds[i];
      WeightedNonNegative(v, ds[1..]);
    }
  }

  /** A till holding no negative count is worth something non-negative, and nothing
      exactly when it is empty. */
  lemma TotalNonNegative(v: BillVec)
    requires forall d :: v.Get(d) >= 0
    ensures Total(v) >= 0
    ensures Total(v) == 0 <==> v == Zero()
  {
    assert forall d :: Ladder[Index(d)] == d;
    WeightedNonNegative(v, Ladder);
    if forall d :: v.Get(d) == 0 {
      Ext(v, Zero());
    }
  }

  lemma {:induction false} WeightedAdd(a: BillVec, b: BillVec, ds: seq<Denom>)
    ensures Weighted(Add(a, b), ds) == Weighted(a, ds) + Weighted(b, ds)
    decreases |ds|
  {
    if ds != [] {
      WeightedAdd(a, b, ds[1..]);
      var d := ds[0];
      assert Value(d) * (a.Get(d) + b.Get(d)) == Value(d) * a.Get(d) + Value(d) * b.Get(d);
    }
  }

  lemma {:induction false} WeightedSub(a: BillVec, b: BillVec, ds: seq<Denom>)
    ensures Weighted(Sub(a, b), ds) == Weighted(a, ds) - Weighted(b, ds)
    decreases |ds|
  {
    if ds != [] {
      WeightedSub(a, b, ds[1..]);
      var d := ds[0];
      assert Value(d) * (a.Get(d) - b.Get(d)) == Value(d) * a.Get(d) - Value(d) * b.Get(d);
    }
  }

  /** `total` is additive: `(a + b).total == a.total + b.total`. */
  lemma TotalAdd(a: BillVec, b: BillVec)
    ensures Total(Add(a, b)) == Total(a) + Total(b)
  {
    WeightedAdd(a, b, Ladder);
  }

  /** `total` is subtractive: `(a - b).total == a.total - b.total`. */
  lemma TotalSub(a: BillVec, b: BillVec)
    ensures Total(Sub(a, b)) == Total(a) - Total(b)
  {
    WeightedSub(a, b, Ladder);
  }

  lemma {:induction false} WeightedBump(v: BillVec, d: Denom, n: int, ds: seq<Denom>)
    requires Distinct(ds)
    ensures Weighted(Bump(v, d, n), ds) == Weighted(v, ds) + (if d in ds then Value(d) * n else 0)
    decreases |ds|
  {
    if ds != [] {
      var rest := ds[1..];
      assert Distinct(rest) by {
        forall i, j | 0 <= i < j < |rest| ensures rest[i] != rest[j] {
          assert rest[i] == ds[i + 1] && rest[j] == ds[j + 1];
        }
      }
      WeightedBump(v, d, n, rest);
      if ds[0] == d {
        assert d !in rest by {
          forall k | 0 <= k < |rest| ensures rest[k] != d {
            assert rest[k] == ds[k + 1];
          }
        }
        assert Value(d) * (v.Get(d) + n) == Value(d) * v.Get(d) + Value(d) * n;
      } else {
        assert d in ds <==> d in rest by {
          assert ds == [ds[0]] + rest;
        }
      }
    }
  }

  /** Adding `n` units of `d` raises the total by exactly `n` times the worth of `d`. */
  lemma TotalBump(v: BillVec, d: Denom, n: int)
    ensures Total(Bump(v, d, n)) == Total(v) + Value(d) * n
  {
    LadderAscending();
    WeightedBump(v, d, n, Ladder);
  }

  /**
   A `bills` object: seven counts updated in place.
   */
  class Bills {
    var coin: int
    var b1: int
    var b5: int
    var b10: int
    var b20: int
    var b50: int
    var b100: int

    /** The stored columns as a value (`as_attrs`). */
    function View(): BillVec
      reads this
    {
      BillVec(coin, b1, b5, b10, b20, b50, b100)
    }

    /** `getattr(self, d)`. */
    function Get(d: Denom): int
      reads this
    {
      View().Get(d)
    }

    /** `bills(**attrs)`; `bills()` is `new Bills(Zero())`. */
    constructor (v: BillVec)
      ensures View() == v
    {
      coin, b1, b5, b10 := v.coin, v.b1, v.b5, v.b10;
      b20, b50, b100 := v.b20, v.b50, v.b100;
    }

    /** `copy`: a fresh object with the same counts. */
    method Copy() returns (c: Bills)
      ensures fresh(c) && c.View() == View()
    {
      c := new Bills(View());
    }

    /** `setattr(self, d, n)`. */
    method SetAttr(d: Denom, n: int)
      modifies this
      ensures View() == old(View()).With(d, n)
    {
      match d
      case Coin => coin := n;
      case B1 => b1 := n;
      case B5 => b5 := n;
      case B10 => b10 := n;
      case B20 => b20 := n;
      case B50 => b50 := n;
      case B100 => b100 := n;
    }

    /** `add_to_attr(d, inc)`; passing another vector is passing its count in column `d`. */
    method AddToAttr(d: Denom, inc: int)
      modifies this
      ensures View() == Bump(old(View()), d, inc)
    {
      SetAttr(d, Get(d) + inc);
    }

    /** `sub_from_attr(d, dec)`; passing another vector is passing its count in column `d`. */
    method SubFromAttr(d: Denom, dec: int)
      modifies this
      ensures View() == Bump(old(View()), d, -dec)
    {
      SetAttr(d, Get(d) - dec);
    }

    /** `self += other`, one stored column at a time. */
    method IAdd(other: BillVec)
      modifies this
      ensures View() == Add(old(View()), other)
    {
      for i := 0 to |Ladder|
        invariant forall d :: Get(d) == old(Get(d)) + (if Index(d) < i then other.Get(d) else 0)
      {
        AddToAttr(Ladder[i], other.Get(Ladder[i]));
      }
      Ext(View(), Add(old(View()), other));
    }

    /** `self -= other`, one stored column at a time. */
    method ISub(other: BillVec)
      modifies this
      ensures View() == Sub(old(View()), other)
    {
      for i := 0 to |Ladder|
        invariant forall d :: Get(d) == old(Get(d)) - (if Index(d) < i then other.Get(d) else 0)
      {
        SubFromAttr(Ladder[i], other.Get(Ladder[i]));
      }
      Ext(View(), Sub(old(View()), other));
    }
  }
}
