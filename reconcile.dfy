/**
 Ledger rows (the Reconcile table), the Starts configuration table, and the
 lookups the cash tools make into them. Donations, like the coin column, are
 held in cents.
 */
module Reconcile {
  import opened Results
  import opened Bills

  datatype Date = Date(year: int, month: int, day: int)

  /** One Reconcile row. A missing detail is the empty string. */
  datatype Entry = Entry(date: Date, account: string, detail: string, bills: BillVec, donations: int)

  /** A Reconcile row's `total`: its bills total less its donations. */
  function EntryTotal(e: Entry): (t: int)
    ensures t == Total(e.bills) <==> e.donations == 0
    ensures t <= Total(e.bills) <==> e.donations >= 0
  {
    Total(e.bills) - e.donations
  }

  /** A confirmed cash count: account "cash", detail "w/starts". */
  predicate IsSnapshot(e: Entry)
  {
    e.account == "cash" && e.detail == "w/starts"
  }

  /** One Starts row, keyed by (account, detail). */
  datatype StartRow = StartRow(account: string, detail: string, bills: BillVec)

  predicate HasKey(s: StartRow, account: string, detail: string)
  {
    s.account == account && s.detail == detail
  }

  /** `Starts[account, detail]` when the key is present. */
  function FindStart(starts: seq<StartRow>, account: string, detail: string): (r: Option<BillVec>)
    ensures r.None? <==> forall i :: 0 <= i < |starts| ==> !HasKey(starts[i], account, detail)
    ensures r.Some? ==> exists i :: 0 <= i < |starts| && HasKey(starts[i], account, detail) && starts[i].bills == r.value
    decreases |starts|
  {
    if starts == [] then None
    else if HasKey(starts[0], account, detail) then Some(starts[0].bills)
    else
      var r := FindStart(starts[1..], account, detail);
      assert forall i :: 1 <= i < |starts| ==> starts[i] == starts[1..][i - 1];
      r
  }

  /** Every "start" row holds a non-negative count of each denomination. */
  predicate StartsNonNegative(starts: seq<StartRow>)
  {
    forall i :: 0 <= i < |starts| && starts[i].detail == "start" ==> forall d :: starts[i].bills.Get(d) >= 0
  }

  /** The worth of the "start" rows, row by row. */
  function TotalOfStarts(starts: seq<StartRow>): int
    decreases |starts|
  {
    if starts == [] then 0
    else
      var s := starts[|starts| - 1];
      TotalOfStarts(starts[..|starts| - 1]) + (if s.detail == "start" then Total(s.bills) else 0)
  }

  /** Sum of every Starts row whose detail is "start", in table order. */
  function SumStarts(starts: seq<StartRow>): (r: BillVec)
    ensures (forall i :: 0 <= i < |starts| ==> starts[i].detail != "start") ==> r == Zero()
    ensures StartsNonNegative(starts) ==> forall d :: r.Get(d) >= 0
    ensures Total(r) == TotalOfStarts(starts)
    decreases |starts|
  {
    if starts == [] then Zero()
    else
      var rest := SumStarts(starts[..|starts| - 1]);
      var s := starts[|starts| - 1];
      assert forall i :: 0 <= i < |starts| - 1 ==> starts[..|starts| - 1][i] == starts[i];
      assert StartsNonNegative(starts) ==> StartsNonNegative(starts[..|starts| - 1]);
      if s.detail == "start" then TotalAdd(rest, s.bills); Add(rest, s.bills) else rest
  }

  /** The Reconcile table: rows in insertion order, only ever appended to. */
  class ReconcileTable {
    var rows: seq<Entry>

    constructor (rows: seq<Entry>)
      ensures this.rows == rows
    {
      this.rows := rows;
    }

    /** `Reconcile.insert(...)`: a new row at the end. */
    method Insert(e: Entry)
      modifies this
      ensures rows == old(rows) + [e]
    {
      rows := rows + [e];
    }
  }
}
