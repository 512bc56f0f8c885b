/** The P&L calculator's click handler: plain arithmetic on three form
    fields, guarded against zero or missing inputs. */
module ProfitLoss {
  import opened Wrappers
  import opened FormInput

  /** Profit in money and change in percent of the entry price. */
  datatype Report = Report(profit: real, percent: real)

  const Prompt := "Enter entry, exit, and qty."

  /** The handler: aborts with the prompt when any input is zero or not a
      number; otherwise the profit is the price difference per unit times
      the quantity, and the percent is that difference relative to entry. */
  function Calculate(entry: Num, exit: Num, qty: Num): (r: Result<Report, string>)
    ensures r.Failure? <==> Falsy(entry) || Falsy(exit) || Falsy(qty)
    ensures r.Failure? ==> r.error == Prompt
    ensures r.Success? ==> r.value.profit == qty.v * exit.v - qty.v * entry.v
    ensures r.Success? ==> r.value.percent * entry.v == (exit.v - entry.v) * 100.0
  {
    if Falsy(entry) || Falsy(exit) || Falsy(qty) then Failure(Prompt)
    else
      var pnl := (exit.v - entry.v) * qty.v;
      var pct := ((exit.v - entry.v) / entry.v) * 100.0;
      Success(Report(pnl, pct))
  }

  /** The profit and the percent agree: the profit is the percent of the
      position's entry value. */
  lemma ProfitIsPercentOfPosition(entry: Num, exit: Num, qty: Num)
    requires Calculate(entry, exit, qty).Success?
    ensures Calculate(entry, exit, qty).value.profit * 100.0
            == Calculate(entry, exit, qty).value.percent * entry.v * qty.v
  {
  }

  /** Selling at the entry price gives no profit and no change. */
  lemma BreakEven(entry: Num, qty: Num)
    requires !Falsy(entry) && !Falsy(qty)
    ensures Calculate(entry, entry, qty) == Success(Report(0.0, 0.0))
  {
  }

  /** Entry 100, exit 110, quantity 10 gives a profit of 100 and 10 percent. */
  lemma TenPercentExample()
    ensures Calculate(Finite(100.0), Finite(110.0), Finite(10.0)) == Success(Report(100.0, 10.0))
  {
  }
}
