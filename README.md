# csv-beans cash till, in Dafny

This project models the cash-till bookkeeping at the heart of csv-beans. A club keeps its
books in a ledger table called Reconcile. Every row of Reconcile records a date, an
account, a detail, a count of each denomination (coin, $1, $5, $10, $20, $50, $100) and a
donation amount. A `(cash, w/starts)` row is a confirmed count of the till, including the
recurring "start" floats that the Starts table gives each event account.

The project has three parts:

- **The bill vector** (`bills.dfy`, `module Bills`). This is the seven-slot `bills` record.
  - `BillVec` is the value form. It gives the componentwise `+`/`-`, `copy` and `total`.
  - The class `Bills` is the mutable form. It gives the in-place `+=`/`-=`,
    `add_to_attr`/`sub_from_attr` and `setattr` that the tools use.
  - Money is kept in cents. The coin slot holds cents and each bill slot holds a number of
    bills, so `Value(Coin) == 1` and `Value(bN) == 100 * N`.
- **The Reconcile table and the Months helpers** (`reconcile.dfy`, `months.dfy`).
  - Reconcile rows, the Starts lookup and the ledger as an append-only table.
  - `prev_month`, `meals_served` and the `nth_day` weekday arithmetic.
- **The two tools.**
  - `cash_swap.dfy` (`module CashSwap`) is the denomination-exchange optimiser. Starting
    from the last cash count with the start floats removed, it works out what to take to
    the bank (`cash out`) and what to bring back (`cash in`). It runs in three passes:
    - Phase A, "rob from high bills to fill short bills";
    - Phase B, "convert lower bills to higher bills", including the two-$20-plus-one-$10
      to $50 combine;
    - Phase C, normalisation.

    It then appends four ledger rows.
  - `cash_balance.dfy` (`module CashBalance`) is the balance walker. It finds the last cash
    count, copies it, and replays the ledger onto the copy from that row itself to the end.
    Revenue rows add their bills and give back the account's start float, Expenses rows
    remove their bills, and Bank and Cash rows change nothing. The cash count is replayed
    too, so the "cash" account's type matters: as Bank or Cash it changes nothing, and when
    "cash" has no type at all the run stops at that row with `MissingAccount`. It then
    appends the resulting balance without and with the start floats.

The Accounts table's account→type column is a `map<string, string>`. The Starts table is a
sequence of `StartRow`s keyed by (account, detail). "Today" is a parameter.

## Model

The three exchange passes are each written twice: as a function on values (`RobFrom`,
`ConvertFrom`, `NormalizeFrom`, one column at a time) and as the in-place loop over two
`Bills` objects. Each loop takes the starting sides as a ghost argument `s0` and is proved to
leave the objects holding exactly what the function computes from `s0`. The guarantees of
each pass are lemmas about the function.

| member | source | states |
|---|---|---|
| Bills.LadderAscending | csv_beans/rows.py:107-114 | every denomination is on the ladder once; `value` gives coin 1 and bN N, counted here in cents as 1 and 100·N; the ladder is strictly ascending in worth only because of the cents unit, since in the source coin and b1 are both worth 1 |
| Bills.Index | csv_beans/rows.py:95-96 | each denomination has exactly one position among the stored columns |
| Bills.Add | csv_beans/rows.py:122-125 | `a + b` adds slot by slot for all seven denominations |
| Bills.Sub | csv_beans/rows.py:127-130 | `a - b` subtracts slot by slot for all seven denominations |
| Bills.AddSubInverse | csv_beans/rows.py:122-130 | `(a + b) - b == a` |
| Bills.SubAddInverse | csv_beans/rows.py:122-130 | `(a - b) + b == a` |
| Bills.SubSub | csv_beans/rows.py:127-130 | taking away `s` and then `x` is the same as taking away `s + x` |
| Bills.Bump | csv_beans/rows.py:146-158 | changing one denomination by n changes that slot by n and no other |
| Bills.BillVec.With | csv_beans/rows.py:150-151 | `setattr` gives denomination d the value n and leaves the other slots unchanged |
| Bills.WeightedNonNegative | csv_beans/rows.py:160-162 | with no negative count, the value-weighted sum over a list of denominations is non-negative, and it is zero exactly when every listed count is zero |
| Bills.TotalNonNegative | csv_beans/rows.py:160-162 | `total` of a record with no negative count is non-negative, and it is zero exactly when the record is empty |
| Bills.WeightedAdd | csv_beans/rows.py:160-162 | the weighted sum over any list of denominations is additive |
| Bills.WeightedSub | csv_beans/rows.py:160-162 | the weighted sum over any list of denominations is subtractive |
| Bills.TotalAdd | csv_beans/rows.py:160-162 | `total(a + b) == total(a) + total(b)` |
| Bills.TotalSub | csv_beans/rows.py:160-162 | `total(a - b) == total(a) - total(b)` |
| Bills.TotalBump | csv_beans/rows.py:146-162 | adding n of denomination d changes the total by value(d)·n |
| Bills.Bills.constructor | csv_beans/rows.py:98-105 | a new record holds exactly the given counts |
| Bills.Bills.Copy | csv_beans/rows.py:116-117 | `copy` is a fresh record equal to the original |
| Bills.Bills.SetAttr | csv_beans/rows.py:150-151 | in place, slot d becomes n and the rest is unchanged |
| Bills.Bills.AddToAttr | csv_beans/rows.py:146-151 | in place, slot d grows by inc and the rest is unchanged |
| Bills.Bills.SubFromAttr | csv_beans/rows.py:153-158 | in place, slot d shrinks by dec and the rest is unchanged |
| Bills.Bills.IAdd | csv_beans/rows.py:132-137 | after `+=`, self equals what `+` would have returned |
| Bills.Bills.ISub | csv_beans/rows.py:139-144 | after `-=`, self equals what `-` would have returned |
| Reconcile.EntryTotal | csv_beans/rows.py:230-234 | a Reconcile row's total is its bill total exactly when it has no donations, and at most its bill total exactly when its donations are non-negative |
| Reconcile.FindStart | csv_beans/cash_swap.py:48 | a Starts lookup finds a row with that key exactly when one exists, and returns that row's bills |
| Reconcile.SumStarts | csv_beans/cash_swap.py:40-43 | the sum of the "start" rows is empty when there are none, has no negative count when no start row has one, and is worth the sum of the start rows' totals |
| Reconcile.ReconcileTable.Insert | csv_beans/cash_balance.py:62-63 | inserting a row appends it and leaves the existing rows unchanged |
| Months.PrevMonth | csv_beans/rows.py:31-37 | January goes to December of the previous year; any other month m goes to m−1 of the same year; the result is the month immediately before and lies in 1..12 |
| Months.MealsServed | csv_beans/rows.py:39-43 | there is a result exactly when both counts are recorded, and then it is staff plus tickets |
| Months.NthDay | csv_beans/rows.py:53-58 | the n-th `day` of the month falls on weekday `day` and lies in 7(n−1)+1 .. 7n |
| Months.MeetingDay | csv_beans/rows.py:45-47 | the meeting is the Tuesday among days 1..7 |
| Months.BreakfastDay | csv_beans/rows.py:49-51 | the breakfast is the Saturday among days 8..14 |
| CashSwap.RatioExact | csv_beans/cash_swap.py:72-79 | each non-top denomination trades up to a larger one at an exact whole ratio; b20→b100 gives 5 and b50→b100 gives 2 |
| CashSwap.NextMultiple | csv_beans/cash_swap.py:72-79 | the search ends inside the ladder, at the first denomination worth a whole multiple, and returns the exact ratio |
| CashSwap.FirstMultipleIsNextUp | csv_beans/cash_swap.py:97-104 | the first whole multiple above a denomination is the one `NextUp` names |
| CashSwap.CeilDiv | csv_beans/cash_swap.py:80 | `math.ceil(a / b)` is the least q with a ≤ b·q, and it is positive when a is positive |
| CashSwap.FloorDiv | csv_beans/cash_swap.py:105 | `math.floor(a / b)` is the greatest q with b·q ≤ a, and it is non-negative when a is |
| CashSwap.TradeIsNeutral | csv_beans/cash_swap.py:83-84 | one trade (here and at lines 108-109) adds the same worth to both sides of the exchange |
| CashSwap.CombineIsNeutral | csv_beans/cash_swap.py:119-121 | two $20s plus one $10 are worth one $50 |
| CashSwap.RobStep | csv_beans/cash_swap.py:71-84 | one Phase A transfer keeps both sides non-negative and equal in worth, and tops the short denomination up to its minimum |
| CashSwap.RobSkip | csv_beans/cash_swap.py:71 | a denomination already at its minimum is not short and counts as filled |
| CashSwap.RobTake | csv_beans/cash_swap.py:71-84 | the Phase A column function, on a short denomination, fills it and keeps the earlier columns filled |
| CashSwap.RobColumnKeeps | csv_beans/cash_swap.py:66-84 | every Phase A column keeps the pass invariant: balanced sides, columns so far at their minimums, nothing yet come in above |
| CashSwap.RobPassMeetsMinimums | csv_beans/cash_swap.py:65-84 | after Phase A both sides are non-negative and equal in worth, every non-top holding is at least its minimum, and no b100 comes in |
| CashSwap.RobHighBills | csv_beans/cash_swap.py:65-84 | the in-place Phase A loop leaves `cash_out` and `cash_in` exactly as `RobFrom` computes them from the starting sides |
| CashSwap.ConvertColumnBelowLot | csv_beans/cash_swap.py:96-121 | a surplus smaller than one lot of the ratio trades nothing (the floor is 0); only a b20 column with a surplus then goes on to the combine |
| CashSwap.ConvertStep | csv_beans/cash_swap.py:96-109 | one Phase B trade keeps the Phase A guarantees and leaves less than one ratio's worth of surplus in that denomination |
| CashSwap.ConvertSkip | csv_beans/cash_swap.py:96 | a denomination that is not above its minimum needs no trade |
| CashSwap.CombineStep | csv_beans/cash_swap.py:110-121 | the $20/$10 → $50 combine keeps both sides non-negative, equal in worth and at their minimums |
| CashSwap.CombineKeeps | csv_beans/cash_swap.py:110-121 | after the combine the Phase B guarantees still hold and no combine is left to make: fewer than two spare $20s or no spare $10 |
| CashSwap.TradeLeavesCombine | csv_beans/cash_swap.py:108-109 | a trade above the b20 column touches neither b20 nor b10, so it cannot make a new combine possible |
| CashSwap.ConvertTradeKeeps | csv_beans/cash_swap.py:96-121 | a Phase B column with a surplus, trade and combine included, keeps the pass invariant |
| CashSwap.ConvertColumnKeeps | csv_beans/cash_swap.py:91-121 | every Phase B column keeps the pass invariant, including "no combine left" once the b20 column is done |
| CashSwap.ConvertPassGoals | csv_beans/cash_swap.py:90-121 | after Phase B the Phase A guarantees still hold, no non-top denomination holds a whole ratio's worth above its minimum, and no combine is left to make |
| CashSwap.CombineTwenties | csv_beans/cash_swap.py:110-121 | in place, `cash_out` gains 2t $20s and t $10s and `cash_in` gains t $50s, where t is the smaller of the spare $20 pairs and the spare $10s (nothing when there is no spare $10) |
| CashSwap.ConvertColumnInPlace | csv_beans/cash_swap.py:91-121 | one in-place Phase B column leaves the objects as `ConvertColumn` computes from their old contents |
| CashSwap.ConvertUp | csv_beans/cash_swap.py:90-121 | the in-place Phase B loop leaves `cash_out` and `cash_in` exactly as `ConvertFrom` computes them from the starting sides |
| CashSwap.CancelStep | csv_beans/cash_swap.py:128-137 | cancelling one denomination keeps `cash_in − cash_out` and zeroes one side |
| CashSwap.CancelInPlace | csv_beans/cash_swap.py:128-137 | one in-place Phase C column leaves the objects as `CancelColumn` computes from their old contents |
| CashSwap.Normalize | csv_beans/cash_swap.py:127-137 | the in-place Phase C loop leaves `cash_out` and `cash_in` exactly as `NormalizeFrom` computes them from the starting sides |
| CashSwap.NormalizeGoals | csv_beans/cash_swap.py:127-137 | after Phase C both sides are non-negative, `cash_in − cash_out` is unchanged in every slot, and at most one side of each denomination is nonzero |
| CashSwap.CancelColumnIdle | csv_beans/cash_swap.py:128-137 | a denomination that already flows one way only is left as it is |
| CashSwap.NormalizeFromIdle | csv_beans/cash_swap.py:127-137 | Phase C changes nothing on an exchange that already flows one way in every denomination |
| CashSwap.NormalizeIdempotent | csv_beans/cash_swap.py:127-137 | running Phase C twice gives what running it once gives |
| CashSwap.SameNetSameHolding | csv_beans/cash_swap.py:127-141 | the same net exchange gives the same holdings and the same difference in worth |
| CashSwap.ExchangeGoals | csv_beans/cash_swap.py:55-141 | the three passes give an exchange that is non-negative, equal in worth on both sides (so the line-141 assertion holds), flows in one direction per denomination, meets every non-top minimum, leaves under one ratio of surplus and leaves no combine to make |
| CashSwap.ComputeExchange | csv_beans/cash_swap.py:55-137 | the three in-place passes over two fresh records return exactly the exchange `ExchangeFor` computes from the till and the minimums |
| CashSwap.SumStartVectors | csv_beans/cash_swap.py:40-43 | the in-place loop computes `SumStarts`, the sum of every "start" row |
| CashSwap.FinalBalance | csv_beans/cash_swap.py:149-150 | `initial − cash_out + cash_in` holds what the exchange leaves in each denomination and, when both sides are worth the same, is worth `initial` (the line-150 assertion) |
| CashSwap.ExchangeHoldsFor | csv_beans/cash_swap.py:141-154 | the computed exchange and the two final balances built from it satisfy every promise of `ExchangeHolds`, so the assertions on lines 141 and 150 cannot fail |
| CashSwap.Run | csv_beans/cash_swap.py:34-154 | the run fails, leaving the ledger unchanged, unless the last row is (cash, w/starts) and cash minimums exist; on success it appends exactly the four rows cash out, cash in, w/o starts and w/starts, dated today, where the exchange is the one the three passes compute from the last count minus the start floats, the final balance keeps the initial total, and w/starts equals w/o starts plus the starts |
| SwapCases.RobExample | csv_beans/cash_swap.py:65-84 | a till of ten $5s with a $1 minimum of 3: Phase A breaks exactly one $5 into five $1s |
| SwapCases.ConvertExample | csv_beans/cash_swap.py:90-121 | a till of one $10 and two $20s with no minimums: Phase B makes the combine, two $20s and one $10 out, one $50 in |
| SwapCases.NormalizeExample | csv_beans/cash_swap.py:127-137 | Phase C leaves that combine's exchange as it is |
| SwapCases.CombineExample | csv_beans/cash_swap.py:55-137 | the whole exchange for that till is two $20s and one $10 out and one $50 in |
| CashBalance.LastSnapshot | csv_beans/cash_balance.py:24-30 | there is no result exactly when no (cash, w/starts) row exists; otherwise the result is the last such row |
| CashBalance.FindSnapshot | csv_beans/cash_balance.py:24-30 | the reverse scan finds the last (cash, w/starts) row, or reports that there is none |
| CashBalance.Step | csv_beans/cash_balance.py:37-48 | one row of the replay succeeds exactly when its account has a type and the row is Revenue, Expenses without donations, Bank or Cash; a failing row gives that row's error; a Bank or Cash row leaves the balance as it is |
| CashBalance.ReplayRows | csv_beans/cash_balance.py:36-48 | the in-place replay loop, starting from the snapshot row itself, computes the replay of those rows or its first error |
| CashBalance.ReplayMatchesSums | csv_beans/cash_balance.py:36-48 | the final balance is the snapshot, plus all Revenue bills, minus each Revenue account's start vector, minus all Expenses bills; Bank and Cash rows add nothing |
| CashBalance.ReplayFailsAtFirstBadRow | csv_beans/cash_balance.py:37-48 | the replay stops at the first row with a missing account, an Expenses row with donations or an unknown type, and reports that row |
| CashBalance.ReplayFailsIff | csv_beans/cash_balance.py:36-48 | the replay fails exactly when some row is one of those, and then with the error of one of them |
| CashBalance.SnapshotRowIsInert | csv_beans/cash_balance.py:36-48 | the snapshot row, replayed as the first row, changes nothing when the cash account's type is Bank or Cash |
| CashBalance.StepTotal | csv_beans/rows.py:230-234 | an Expenses row lowers the till by the row's Reconcile total (bills minus donations); a Revenue row raises it by that total plus the donations, minus its start float |
| CashBalance.BalanceRun | csv_beans/cash_balance.py:24-63 | a run appends only when a (cash, w/starts) row exists before a last row that is not one, and it is dated with that last row; a failure other than "no snapshot" is the error of some ledger row that the replay rejects |
| CashBalance.NoSnapshotFails | csv_beans/cash_balance.py:24-30 | a run fails for want of a cash count exactly when the ledger has no (cash, w/starts) row |
| CashBalance.AlreadyBalancedIff | csv_beans/cash_balance.py:32-34 | nothing is appended exactly when the last (cash, w/starts) row is the final ledger row |
| CashBalance.SecondRunIsNoOp | csv_beans/cash_balance.py:32-34 | a successful run appends two rows, the last a (cash, w/starts) row, so running again at once appends nothing |
| CashBalance.StartsRoundTrip | csv_beans/cash_balance.py:53-59 | `balance_no_starts` plus the sum of all start vectors is `balance` |
| CashBalance.WithoutStarts | csv_beans/cash_balance.py:53-59 | the copy-and-subtract loop yields the balance minus the sum of the start vectors |
| CashBalance.Run | csv_beans/cash_balance.py:24-63 | the run's outcome is `BalanceRun` of the old ledger; the ledger grows by exactly the two rows (cash, w/o starts) then (cash, w/starts), dated with the last ledger row's date, or by nothing |

## Left out

- Reading and writing the CSV database, the summary printing, the `verbose` traces, argparse and the `--trial-run` save gate are not modelled.
- `date.today()` is a parameter of `CashSwap.Run`.
- `Months.NthDay` takes the weekday of the 1st as a parameter instead of calling `date.weekday`. It does not check that the day exists in the month, which `date(...)` would.
- The `target.types` ladder (csv_beans/cash_swap.py:59) belongs to the framework and is not part of this model. The ascending column order of csv_beans/rows.py:84-90 (`Bills.Ladder`) stands in for it.
- The float division `ratio = value / value; ratio.is_integer()` is replaced by an integer divisibility search with exact division. `RatioExact` shows that the ratio is always whole, so the assertion on line 78 cannot fail.
- CashSwap.CeilDiv, CashSwap.FloorDiv: the transfer counts at csv_beans/cash_swap.py:80, 105 and 113 are `math.ceil`/`math.floor` of a float true division of two integers. The model divides exactly on integers. The two agree while the numbers stay below 2^53; float rounding beyond that is not modelled.
- `coin` is a `Decimal` number of dollars in the source. Here it is an integer number of cents, so every worth is 100 times the source's. Transfer counts are unchanged, but the coin→b1 ratio is 100 instead of 1. Fractions of a cent are not modelled.
- CashSwap.MeetsMinimums: the top denomination (b100) is never compared with its minimum, as in both phase loops of the source. So no minimum and no non-negativity is claimed for its holding.
- The Starts table is a sequence searched first-match (`Reconcile.FindStart`), not a dictionary with unique keys. A missing `("cash", "minimums")` row is the `NoMinimums` error, standing for the source's `KeyError`.
- The Accounts table is a map from account to type. A row whose account is missing from it fails the walker with `MissingAccount`, standing for the source's `KeyError`.
- The source's `assert` failures become error values (`SwapError`, `WalkError`); the message texts are not modelled.
- `month_str`, `ticket_price`, `tickets_sold` and `Starts.section`/`category`/`type` depend on framework lookups and are not modelled.
- csv_beans/treasurer_report.py and csv_beans/update_reconcile.py (report rendering, CSV header rewriting, interactive prompt) are not part of this model.
