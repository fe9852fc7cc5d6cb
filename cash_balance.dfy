/**
 The ledger balance walker: replay every ledger row since the last confirmed cash
 count onto that count, and append the resulting balance without and with the
 recurring start amounts.
 */
module CashBalance {
  import opened Results
  import opened Bills
  import opened Reconcile

  datatype WalkError =
    | NoSnapshot
    | MissingAccount(account: string)
    | DonationsOnExpense(date: Date, account: string, detail: string)
    | UnknownType(date: Date, account: string, accountType: string)

  /** How a run ends: it fails, finds the ledger already ending in a cash count, or appends two rows. */
  datatype Walk =
    | Failed(error: WalkError)
    | AlreadyBalanced
    | Appended(date: Date, noStarts: BillVec, withStarts: BillVec)

  /** Index of the last confirmed cash count, if there is one. */
  function LastSnapshot(rows: seq<Entry>): (r: Option<nat>)
    ensures r.None? <==> forall i :: 0 <= i < |rows| ==> !IsSnapshot(rows[i])
    ensures r.Some? ==> r.value < |rows| && IsSnapshot(rows[r.value])
    ensures r.Some? ==> forall j :: r.value < j < |rows| ==> !IsSnapshot(rows[j])
    decreases |rows|
  {
    if rows == [] then None
    else if IsSnapshot(rows[|rows| - 1]) then Some(|rows| - 1)
    else
      var r := LastSnapshot(rows[..|rows| - 1]);
      assert forall i :: 0 <= i < |rows| - 1 ==> rows[..|rows| - 1][i] == rows[i];
      r
  }

  /** The effect of one ledger row on the running balance. */
  function Step(e: Entry, balance: BillVec, types: map<string, string>, starts: seq<StartRow>): (r: Result<BillVec, WalkError>)
    ensures r.Success? <==> RowOk(e, types)
    ensures r.Failure? ==> r.error == RowError(e, types)
    ensures r.Success? && types[e.account] in {"Bank", "Cash"} ==> r.value == balance
  {
    if e.account !in types then Failure(MissingAccount(e.account))
    else
      var ty := types[e.account];
      if ty == "Revenue" then
        var b := Add(balance, e.bills);
        match FindStart(starts, e.account, "start")
        case Some(s) => Success(Sub(b, s))
        case None => Success(b)
      else if ty == "Expenses" then
        if e.donations != 0 then Failure(DonationsOnExpense(e.date, e.account, e.detail))
        else Success(Sub(balance, e.bills))
      else if ty == "Bank" || ty == "Cash" then Success(balance)
      else Failure(UnknownType(e.date, e.account, ty))
  }

  /** Replaying `rows` in order onto `balance`; the first row that cannot be replayed stops it. */
  function Replay(rows: seq<Entry>, balance: BillVec, types: map<string, string>, starts: seq<StartRow>): Result<BillVec, WalkError>
    decreases |rows|
  {
    if rows == [] then Success(balance)
    else
      match Step(rows[0], balance, types, starts)
      case Failure(e) => Failure(e)
      case Success(b) => Replay(rows[1..], b, types, starts)
  }

  /** What one run makes of the ledger `rows`. */
  function BalanceRun(rows: seq<Entry>, types: map<string, string>, starts: seq<StartRow>): (r: Walk)
    ensures r.Appended? ==> |rows| >= 2 && r.date == rows[|rows| - 1].date && !IsSnapshot(rows[|rows| - 1])
    ensures r.Appended? ==> exists i :: 0 <= i < |rows| - 1 && IsSnapshot(rows[i])
    ensures r.Failed? && !r.error.NoSnapshot? ==> exists i :: 0 <= i < |rows| && !RowOk(rows[i], types) && r.error == RowError(rows[i], types)
  {
    match LastSnapshot(rows)
    case None => Failed(NoSnapshot)
    case Some(next) =>
      if next == |rows| - 1 then AlreadyBalanced
      else
        match Replay(rows[next..], rows[next].bills, types, starts)
        case Failure(e) =>
          ReplayFailsIff(rows[next..], rows[next].bills, types, starts);
          assert forall i :: 0 <= i < |rows| - next ==> rows[next..][i] == rows[next + i];
          Failed(e)
        case Success(balance) => Appended(rows[|rows| - 1].date, Sub(balance, SumStarts(starts)), balance)
  }

  /** The rows a run appends: two cash rows when it succeeds, nothing otherwise. */
  function AppendedRows(w: Walk): seq<Entry>
  {
    if w.Appended? then
      [ Entry(w.date, "cash", "w/o starts", w.noStarts, 0),
        Entry(w.date, "cash", "w/starts", w.withStarts, 0) ]
    else []
  }

  /** A row the replay can pass: its account has a type, an expense carries no donations,
      and the type is one of the four the walker knows. */
  predicate RowOk(e: Entry, types: map<string, string>)
  {
    e.account in types &&
    var ty := types[e.account];
    (ty == "Revenue" || (ty == "Expenses" && e.donations == 0) || ty == "Bank" || ty == "Cash")
  }

  /** The error a row that is not `RowOk` stops the replay with. */
  function RowError(e: Entry, types: map<string, string>): WalkError
  {
    if e.account !in types then MissingAccount(e.account)
    else if types[e.account] == "Expenses" then DonationsOnExpense(e.date, e.account, e.detail)
    else UnknownType(e.date, e.account, types[e.account])
  }

  /** The start vector a Revenue row's account gives back, or nothing. */
  function StartOf(account: string, starts: seq<StartRow>): BillVec
  {
    match FindStart(starts, account, "start")
    case Some(s) => s
    case None => Zero()
  }

  function RevenueIn(rows: seq<Entry>, types: map<string, string>): BillVec
    decreases |rows|
  {
    if rows == [] then Zero()
    else if rows[0].account in types && types[rows[0].account] == "Revenue" then Add(rows[0].bills, RevenueIn(rows[1..], types))
    else RevenueIn(rows[1..], types)
  }

  function RevenueStarts(rows: seq<Entry>, types: map<string, string>, starts: seq<StartRow>): BillVec
    decreases |rows|
  {
    if rows == [] then Zero()
    else if rows[0].account in types && types[rows[0].account] == "Revenue" then
      Add(StartOf(rows[0].account, starts), RevenueStarts(rows[1..], types, starts))
    else RevenueStarts(rows[1..], types, starts)
  }

  function ExpensesOut(rows: seq<Entry>, types: map<string, string>): BillVec
    decreases |rows|
  {
    if rows == [] then Zero()
    else if rows[0].account in types && types[rows[0].account] == "Expenses" then Add(rows[0].bills, ExpensesOut(rows[1..], types))
    else ExpensesOut(rows[1..], types)
  }

  /** When every row can be replayed, the final balance is the starting balance plus all
      Revenue bills, minus the start vector of each Revenue row's account, minus all
      Expenses bills; Bank and Cash rows contribute nothing. */
  lemma {:induction false} ReplayMatchesSums(rows: seq<Entry>, balance: BillVec, types: map<string, string>, starts: seq<StartRow>)
    requires forall i :: 0 <= i < |rows| ==> RowOk(rows[i], types)
    ensures Replay(rows, balance, types, starts)
         == Success(Sub(Sub(Add(balance, RevenueIn(rows, types)), RevenueStarts(rows, types, starts)), ExpensesOut(rows, types)))
    decreases |rows|
  {
    if rows == [] {
      Ext(Add(balance, Zero()), balance);
      SubZero(balance);
    } else {
      var e := rows[0];
      assert RowOk(e, types);
      var ty := types[e.account];
      var next := if ty == "Revenue" then Sub(Add(balance, e.bills), StartOf(e.account, starts))
                  else if ty == "Expenses" then Sub(balance, e.bills)
                  else balance;
      assert Step(e, balance, types, starts) == Success(next);
      ReplayMatchesSums(rows[1..], next, types, starts);
      var ri, rs, eo := RevenueIn(rows[1..], types), RevenueStarts(rows[1..], types, starts), ExpensesOut(rows[1..], types);
      var lhs := Sub(Sub(Add(next, ri), rs), eo);
      var rhs := Sub(Sub(Add(balance, RevenueIn(rows, types)), RevenueStarts(rows, types, starts)), ExpensesOut(rows, types));
      forall d ensures lhs.Get(d) == rhs.Get(d) {
      }
      Ext(lhs, rhs);
    }
  }

  /** The replay stops at the first row that is not `RowOk`, with that row's error. */
  lemma {:induction false} ReplayFailsAtFirstBadRow(rows: seq<Entry>, balance: BillVec, types: map<string, string>, starts: seq<StartRow>, k: nat)
    requires k < |rows| && !RowOk(rows[k], types)
    requires forall j :: 0 <= j < k ==> RowOk(rows[j], types)
    ensures Replay(rows, balance, types, starts) == Failure(RowError(rows[k], types))
    decreases k
  {
    var e := rows[0];
    if k == 0 {
      assert Step(e, balance, types, starts) == Failure(RowError(e, types));
    } else {
      assert RowOk(e, types);
      var next := Step(e, balance, types, starts);
      assert next.Success?;
      ReplayFailsAtFirstBadRow(rows[1..], next.value, types, starts, k - 1);
    }
  }

  /** The replay fails exactly when some row is not `RowOk`. */
  lemma ReplayFailsIff(rows: seq<Entry>, balance: BillVec, types: map<string, string>, starts: seq<StartRow>)
    ensures Replay(rows, balance, types, starts).Failure? <==> exists i :: 0 <= i < |rows| && !RowOk(rows[i], types)
    ensures Replay(rows, balance, types, starts).Failure? ==>
      exists i :: 0 <= i < |rows| && !RowOk(rows[i], types) && Replay(rows, balance, types, starts).error == RowError(rows[i], types)
  {
    if forall i :: 0 <= i < |rows| ==> RowOk(rows[i], types) {
      ReplayMatchesSums(rows, balance, types, starts);
    } else {
      var k :| 0 <= k < |rows| && !RowOk(rows[k], types) && forall j :: 0 <= j < k ==> RowOk(rows[j], types) by {
        FirstBad(rows, types);
      }
      ReplayFailsAtFirstBadRow(rows, balance, types, starts, k);
    }
  }

  lemma FirstBad(rows: seq<Entry>, types: map<string, string>)
    requires exists i :: 0 <= i < |rows| && !RowOk(rows[i], types)
    ensures exists k :: 0 <= k < |rows| && !RowOk(rows[k], types) && forall j :: 0 <= j < k ==> RowOk(rows[j], types)
  {
    var i :| 0 <= i < |rows| && !RowOk(rows[i], types);
    var k := 0;
    while RowOk(rows[k], types)
      invariant 0 <= k <= i
      invariant forall j :: 0 <= j < k ==> RowOk(rows[j], types)
      decreases i - k
    {
      k := k + 1;
    }
  }

  /** A run fails for want of a cash count exactly when the ledger holds no (cash, w/starts) row:
      no replay error is ever `NoSnapshot`. */
  lemma NoSnapshotFails(rows: seq<Entry>, types: map<string, string>, starts: seq<StartRow>)
    ensures BalanceRun(rows, types, starts) == Failed(NoSnapshot) <==> forall i :: 0 <= i < |rows| ==> !IsSnapshot(rows[i])
  {
    match LastSnapshot(rows)
    case None =>
    case Some(next) =>
      if next < |rows| - 1 {
        var tail := rows[next..];
        if !(forall i :: 0 <= i < |tail| ==> RowOk(tail[i], types)) {
          var k :| 0 <= k < |tail| && !RowOk(tail[k], types) && forall j :: 0 <= j < k ==> RowOk(tail[j], types) by {
            FirstBad(tail, types);
          }
          ReplayFailsAtFirstBadRow(tail, rows[next].bills, types, starts, k);
        } else {
          ReplayMatchesSums(tail, rows[next].bills, types, starts);
        }
      }
  }

  /** Nothing is appended exactly when the ledger already ends in a (cash, w/starts) row. */
  lemma AlreadyBalancedIff(rows: seq<Entry>, types: map<string, string>, starts: seq<StartRow>)
    ensures BalanceRun(rows, types, starts) == AlreadyBalanced <==> |rows| > 0 && IsSnapshot(rows[|rows| - 1])
  {
    NoSnapshotFails(rows, types, starts);
    var w := BalanceRun(rows, types, starts);
    match LastSnapshot(rows)
    case None =>
    case Some(next) =>
      if next < |rows| - 1 {
        assert !IsSnapshot(rows[|rows| - 1]);
        assert !w.AlreadyBalanced?;
      }
  }

  /** The last row a successful run appends is a (cash, w/starts) row, so running the
      walker again at once appends nothing. */
  lemma SecondRunIsNoOp(rows: seq<Entry>, types: map<string, string>, starts: seq<StartRow>)
    requires BalanceRun(rows, types, starts).Appended?
    ensures |AppendedRows(BalanceRun(rows, types, starts))| == 2
    ensures BalanceRun(rows + AppendedRows(BalanceRun(rows, types, starts)), types, starts) == AlreadyBalanced
  {
    var rows' := rows + AppendedRows(BalanceRun(rows, types, starts));
    AlreadyBalancedIff(rows', types, starts);
  }

  /** The two appended balances differ by exactly the sum of the start vectors. */
  lemma StartsRoundTrip(rows: seq<Entry>, types: map<string, string>, starts: seq<StartRow>)
    requires BalanceRun(rows, types, starts).Appended?
    ensures Add(BalanceRun(rows, types, starts).noStarts, SumStarts(starts)) == BalanceRun(rows, types, starts).withStarts
  {
    var w := BalanceRun(rows, types, starts);
    SubAddInverse(w.withStarts, SumStarts(starts));
  }

  /** The (cash, w/starts) row the replay starts from is itself replayed, and leaves the
      balance alone because the cash account's type is Bank or Cash. */
  lemma SnapshotRowIsInert(e: Entry, balance: BillVec, types: map<string, string>, starts: seq<StartRow>)
    requires IsSnapshot(e)
    requires "cash" in types && (types["cash"] == "Bank" || types["cash"] == "Cash")
    ensures Step(e, balance, types, starts) == Success(balance)
  {
  }

  /** An expense lowers the till's total by the row's Reconcile total; a revenue row raises
      it by the Reconcile total plus the donations (which the Reconcile total leaves out),
      less the total of the account's start vector. */
  lemma StepTotal(e: Entry, balance: BillVec, types: map<string, string>, starts: seq<StartRow>)
    requires RowOk(e, types)
    ensures Step(e, balance, types, starts).Success?
    ensures types[e.account] == "Expenses" ==>
      Total(Step(e, balance, types, starts).value) == Total(balance) - EntryTotal(e)
    ensures types[e.account] == "Revenue" ==>
      Total(Step(e, balance, types, starts).value) == Total(balance) + EntryTotal(e) + e.donations - Total(StartOf(e.account, starts))
  {
    TotalSub(balance, e.bills);
    TotalAdd(balance, e.bills);
    TotalSub(Add(balance, e.bills), StartOf(e.account, starts));
    if FindStart(starts, e.account, "start").None? {
      SubZero(Add(balance, e.bills));
    }
  }

  /** The reverse scan for the last confirmed cash count. */
  method FindSnapshot(rows: seq<Entry>) returns (r: Option<nat>)
    ensures r == LastSnapshot(rows)
  {
    var n := |rows|;
    while n > 0
      invariant 0 <= n <= |rows|
      invariant forall j :: n <= j < |rows| ==> !IsSnapshot(rows[j])
    {
      var recon := rows[n - 1];
      if IsSnapshot(recon) {
        return Some(n - 1);
      }
      n := n - 1;
    }
    return None;
  }


  /** Replaying from row `i` is one step on row `i`, then the replay from row `i + 1`. */
  lemma ReplayUnfold(rows: seq<Entry>, i: nat, balance: BillVec, types: map<string, string>, starts: seq<StartRow>)
    requires i < |rows|
    ensures Replay(rows[i..], balance, types, starts)
         == match Step(rows[i], balance, types, starts)
            case Failure(e) => Failure(e)
            case Success(b) => Replay(rows[i + 1..], b, types, starts)
  {
    assert rows[i..][0] == rows[i] && rows[i..][1..] == rows[i + 1..];
  }

  /** The replay of rows `next..` from the cash count at `next` comes to the replay of rows
      `i..` from `balance`. */
  ghost predicate ReplayRest(rows: seq<Entry>, next: nat, i: nat, balance: BillVec, types: map<string, string>, starts: seq<StartRow>)
    requires next < |rows| && next <= i <= |rows|
  {
    Replay(rows[next..], rows[next].bills, types, starts) == Replay(rows[i..], balance, types, starts)
  }

  lemma ReplayRestStep(rows: seq<Entry>, next: nat, i: nat, before: BillVec, after: BillVec, types: map<string, string>, starts: seq<StartRow>)
    requires next <= i < |rows|
    requires ReplayRest(rows, next, i, before, types, starts)
    requires Step(rows[i], before, types, starts) == Success(after)
    ensures ReplayRest(rows, next, i + 1, after, types, starts)
  {
    ReplayUnfold(rows, i, before, types, starts);
  }

  lemma ReplayRestFails(rows: seq<Entry>, next: nat, i: nat, before: BillVec, types: map<string, string>, starts: seq<StartRow>)
    requires next <= i < |rows|
    requires ReplayRest(rows, next, i, before, types, starts)
    requires !RowOk(rows[i], types)
    ensures Replay(rows[next..], rows[next].bills, types, starts) == Failure(RowError(rows[i], types))
  {
    ReplayUnfold(rows, i, before, types, starts);
  }

  lemma ReplayRestDone(rows: seq<Entry>, next: nat, balance: BillVec, types: map<string, string>, starts: seq<StartRow>)
    requires next < |rows|
    requires ReplayRest(rows, next, |rows|, balance, types, starts)
    ensures Replay(rows[next..], rows[next].bills, types, starts) == Success(balance)
  {
    assert rows[|rows|..] == [];
  }

  /** The replay loop: `balance` starts as a copy of the cash count at `next`, and the
      loop runs from that row itself to the end of the ledger. */
  method ReplayRows(rows: seq<Entry>, next: nat, types: map<string, string>, starts: seq<StartRow>)
    returns (r: Result<BillVec, WalkError>)
    requires next < |rows|
    ensures r == Replay(rows[next..], rows[next].bills, types, starts)
  {
    var balance := new Bills(rows[next].bills);
    var i := next;
    while i < |rows|
      invariant next <= i <= |rows|
      invariant ReplayRest(rows, next, i, balance.View(), types, starts)
    {
      var recon := rows[i];
      ghost var before := balance.View();
      if recon.account !in types {
        ReplayRestFails(rows, next, i, before, types, starts);
        return Failure(MissingAccount(recon.account));
      }
      var ty := types[recon.account];
      if ty == "Revenue" {
        balance.IAdd(recon.bills);
        var start := FindStart(starts, recon.account, "start");
        if start.Some? {
          balance.ISub(start.value);
        }
      } else if ty == "Expenses" {
        if recon.donations != 0 {
          ReplayRestFails(rows, next, i, before, types, starts);
          return Failure(DonationsOnExpense(recon.date, recon.account, recon.detail));
        }
        balance.ISub(recon.bills);
      } else if !(ty == "Bank" || ty == "Cash") {
        ReplayRestFails(rows, next, i, before, types, starts);
        return Failure(UnknownType(recon.date, recon.account, ty));
      }
      ReplayRestStep(rows, next, i, before, balance.View(), types, starts);
      i := i + 1;
    }
    ReplayRestDone(rows, next, balance.View(), types, starts);
    return Success(balance.View());
  }

  /** `balance_no_starts`: a copy of the balance with every "start" row taken away. */
  method WithoutStarts(balance: BillVec, starts: seq<StartRow>) returns (r: BillVec)
    ensures r == Sub(balance, SumStarts(starts))
  {
    var noStarts := new Bills(balance);
    SubZero(balance);
    for i := 0 to |starts|
      invariant noStarts.View() == Sub(balance, SumStarts(starts[..i]))
    {
      assert starts[..i + 1][..i] == starts[..i];
      if starts[i].detail == "start" {
        SubSub(balance, SumStarts(starts[..i]), starts[i].bills);
        noStarts.ISub(starts[i].bills);
      }
    }
    assert starts[..|starts|] == starts;
    r := noStarts.View();
  }

  /** One run of the balance tool against the ledger. */
  method Run(ledger: ReconcileTable, types: map<string, string>, starts: seq<StartRow>) returns (r: Walk)
    modifies ledger
    ensures r == BalanceRun(old(ledger.rows), types, starts)
    ensures ledger.rows == old(ledger.rows) + AppendedRows(r)
  {
    var found := FindSnapshot(ledger.rows);
    if found.None? {
      return Failed(NoSnapshot);
    }
    var next := found.value;
    if next == |ledger.rows| - 1 {
      return AlreadyBalanced;
    }
    var replayed := ReplayRows(ledger.rows, next, types, starts);
    if replayed.Failure? {
      return Failed(replayed.error);
    }
    var balance := replayed.value;
    var effDate := ledger.rows[|ledger.rows| - 1].date;
    var balanceNoStarts := WithoutStarts(balance, starts);
    ledger.Insert(Entry(effDate, "cash", "w/o starts", balanceNoStarts, 0));
    ledger.Insert(Entry(effDate, "cash", "w/starts", balance, 0));
    r := Appended(effDate, balanceNoStarts, balance);
  }
}
