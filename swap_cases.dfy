/** Worked cases of the exchange, each pinning the passes to one concrete till. */
module SwapCases {
  import opened Bills
  import opened CashSwap

  /** Below b20 the till {b10: 1, b20: 2} has no whole lot to trade. */
  lemma ConvertExampleLow()
    ensures ConvertFrom(BillVec(0, 0, 0, 1, 2, 0, 0), Zero(), Sides(Zero(), Zero()), 0)
         == ConvertFrom(BillVec(0, 0, 0, 1, 2, 0, 0), Zero(), Sides(Zero(), Zero()), 4)
  {
    var till, none := BillVec(0, 0, 0, 1, 2, 0, 0), Zero();
    var empty := Sides(Zero(), Zero());
    ConvertColumnBelowLot(till, none, empty, 0);
    ConvertColumnBelowLot(till, none, empty, 1);
    ConvertColumnBelowLot(till, none, empty, 2);
    ConvertColumnBelowLot(till, none, empty, 3);
  }

  /** In the b20 column the two b20s and the b10 become one b50. */
  lemma ConvertExampleCombine()
    ensures ConvertColumn(BillVec(0, 0, 0, 1, 2, 0, 0), Zero(), Sides(Zero(), Zero()), 4)
         == Sides(BillVec(0, 0, 0, 1, 2, 0, 0), BillVec(0, 0, 0, 0, 0, 1, 0))
  {
    ConvertColumnBelowLot(BillVec(0, 0, 0, 1, 2, 0, 0), Zero(), Sides(Zero(), Zero()), 4);
  }

  /** The b50 column then has nothing to trade. */
  lemma ConvertExampleHigh()
    ensures ConvertColumn(BillVec(0, 0, 0, 1, 2, 0, 0), Zero(),
              Sides(BillVec(0, 0, 0, 1, 2, 0, 0), BillVec(0, 0, 0, 0, 0, 1, 0)), 5)
         == Sides(BillVec(0, 0, 0, 1, 2, 0, 0), BillVec(0, 0, 0, 0, 0, 1, 0))
  {
    ConvertColumnBelowLot(BillVec(0, 0, 0, 1, 2, 0, 0), Zero(),
                          Sides(BillVec(0, 0, 0, 1, 2, 0, 0), BillVec(0, 0, 0, 0, 0, 1, 0)), 5);
  }

  /** The whole second pass on {b10: 1, b20: 2} with no minimums. */
  lemma ConvertExample()
    ensures ConvertFrom(BillVec(0, 0, 0, 1, 2, 0, 0), Zero(), Sides(Zero(), Zero()), 0)
         == Sides(BillVec(0, 0, 0, 1, 2, 0, 0), BillVec(0, 0, 0, 0, 0, 1, 0))
  {
    ConvertExampleLow();
    ConvertExampleCombine();
    ConvertExampleHigh();
  }

  /** The combine already flows one way, so the third pass keeps it. */
  lemma NormalizeExample()
    ensures NormalizeFrom(Sides(BillVec(0, 0, 0, 1, 2, 0, 0), BillVec(0, 0, 0, 0, 0, 1, 0)), 0)
         == Sides(BillVec(0, 0, 0, 1, 2, 0, 0), BillVec(0, 0, 0, 0, 0, 1, 0))
  {
    var combined := Sides(BillVec(0, 0, 0, 1, 2, 0, 0), BillVec(0, 0, 0, 0, 0, 1, 0));
    NormalizeFromIdle(combined, 0);
  }

  /** With no minimums, {b10: 1, b20: 2} is exchanged for one b50, and nothing else. */
  lemma CombineExample()
    ensures ExchangeFor(BillVec(0, 0, 0, 1, 2, 0, 0), Zero())
         == Sides(BillVec(0, 0, 0, 1, 2, 0, 0), BillVec(0, 0, 0, 0, 0, 1, 0))
  {
    assert RobPass(BillVec(0, 0, 0, 1, 2, 0, 0), Zero()) == Sides(Zero(), Zero());
    ConvertExample();
    NormalizeExample();
  }

  /** Ten b5s and a b1 minimum of 3: one b5 is broken into five b1s, not two. */
  lemma RobExample()
    ensures RobPass(BillVec(0, 0, 10, 0, 0, 0, 0), BillVec(0, 3, 0, 0, 0, 0, 0))
         == Sides(BillVec(0, 0, 1, 0, 0, 0, 0), BillVec(0, 5, 0, 0, 0, 0, 0))
  {
  }
}
