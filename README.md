# Mock trading dashboard — a Dafny model of its logic

The dashboard is a single browser script. It charts a simulated price series
for a stock symbol and extends that series on a timer. It also validates
simulated orders, computes profit and loss, and keeps a watchlist of symbols
in local storage. This project models the sequential logic under that glue
and proves properties of it:

- `Series` (`series.dfy`): the seed table; the random walk `genSeries` uses,
  where each point is `max(1, previous + shock)`; the live tick, which
  appends one point and evicts the oldest beyond the resolution (a bounded
  FIFO window); and the default seed given to unknown symbols.
- `Dashboard` (`dashboard.dfy`): the page's global state as a class `Page`
  with the fields `seeds`, `data`, `seriesLen` and `currentSymbol`. Its
  methods are the handlers that change that state: initial load, `refresh`,
  the symbol select, the resolution buttons, the timer tick and a watchlist
  row's chart button. The class invariant says the chart always shows the
  last `seriesLen` points of one random walk from the current symbol's seed,
  whose shocks stay within that seed's volatility. The handlers take their
  draws of the random source as arguments, each in [0, 1).
- `Orders` (`orders.dfy`): the order form's fail-fast validation and the
  summary of an accepted order, including the market-price estimate.
- `ProfitLoss` (`profit_loss.dfy`): the P&L calculator.
- `Watchlist` (`watchlist.dfy`): reading the stored list with its fallback
  to the empty list, add ("append if absent") and remove ("filter out,
  always write back"), on a class `WatchStore` that owns the storage entry.
- `Wrappers`, `FormInput` (`wrappers.dfy`): `Option`, `Result`, and the
  numbers read from form fields.

Modelling choices:

- Prices are exact `real`s, with no rounding.
- The random source is an input. A draw `u` stands for one
  `Math.random()` value, and its shock is `(u - 0.5) * vol * 2`, as in the
  code. A draw in [0, 1) gives a shock in [-vol, +vol]; this is proved.
- A form field is a `Num`: `Finite(v)`, or `NaN` for text that is not a
  number. An empty field reads as `Finite(0.0)`. This way the code's `!x`
  tests (true for 0 and NaN) are modelled exactly.
- The order types are the select's tokens `MARKET`, `LIMIT` and `SL`.
- Local storage is one `Option<Stored>` cell. `Stored` is either a parsed
  list of symbols or `Unparseable`. `Unparseable` covers both a parse error
  and a parsed value that `|| []` replaces, such as `null`.
- Symbols reach the model already trimmed and upper-cased.

Facts about the script that the model reflects:

- The first generated point is already shocked (`script.js:22-26`). It is
  `Step(base, shock)`, not `base` (`Series.WalkPointIsStep`).
- The chart code has no fallback for a flat series. It divides by
  `max - min` unguarded (`script.js:56`).
- The default seed is given only by a watchlist row's chart button. The
  symbol select charts only symbols that already have a seed.

## Model

| member | source | states |
|---|---|---|
| `Series.ShockWithinVolatility` | script.js:24 | a draw u in [0, 1) gives a shock `(u - 0.5) * vol * 2` within [-vol, +vol] for vol >= 0 |
| `Series.DrawsGiveBoundedShocks` | script.js:24 | every shock made from a sequence of draws lies within [-vol, +vol] |
| `Series.Step` | script.js:25 | one step `max(1, p + shock)` is at least 1 and at least `p + shock` |
| `Series.StepMovesAtMostShock` | script.js:25 | from a price of at least 1, the floor never makes a step move further than the shock |
| `Series.Walk` | script.js:19-28 | the generated series has exactly one point per shock |
| `Series.WalkIsFloored` | script.js:25-26 | every generated point is at least 1 |
| `Series.WalkPointIsStep` | script.js:22-27 | point i is `max(1, point[i-1] + shock[i])`, where the point before the first is `base`, so the first point is already shocked |
| `Series.WalkSnoc` | script.js:23-27 | one more loop iteration appends exactly one step from the last point (from `base` when the series is empty) |
| `Series.WalkStepsWithinVolatility` | script.js:24-25 | from a base of at least 1, each generated point differs from the one before it (or from `base`) by at most vol |
| `Series.WalkIsSmooth` | script.js:22-27 | consecutive generated points differ by at most vol |
| `Series.GenSeries` | script.js:19-28 | the loop with its mutable `p` and `push` returns exactly the walk from the symbol's seed over the draws' shocks |
| `Series.TickSeries` | script.js:92-98 | an empty series is unchanged; otherwise exactly one new point, the step from the last point, is at the end; below the resolution nothing is dropped; at or above it only the oldest point goes and the rest keep their order; a series within the resolution stays within it |
| `Series.TickOnWindow` | script.js:96-98 | a tick on the last n points of a series gives the last n points of that series one step longer |
| `Series.TickExtendsWalk` | script.js:93-98 | a tick on a non-empty window of a walk is the window of the same walk extended by the tick's shock |
| `Series.WindowIsFloored` | script.js:97-98 | the last n points of a series whose points are all at least 1 are all at least 1 |
| `Series.WindowIsSmooth` | script.js:97-98 | the last n points of a series whose steps are within vol have steps within vol |
| `Series.WindowWithinVolatility` | script.js:91-98 | every window of a walk from a base of at least 1 fits the resolution, has all points at least 1 and steps within vol |
| `Series.TicksContinueWalk` | script.js:91-100 | after any number of ticks, the chart shows the last n points of one continued random walk |
| `Series.WithDefaultSeed` | script.js:220-222 | an unknown symbol gets seed {base 100, vol 0.8}; a known symbol's seed and every other seed are unchanged; exactly that one key may be added |
| `Orders.MarketPrice` | script.js:134 | the market estimate is never 0; it is the last data point when that is present and non-zero, otherwise the symbol's base or 100 |
| `Orders.MarketPriceInPageState` | script.js:134 | with all points at least 1 and positive bases: the last point if there is one, else the seed's base, else 100 |
| `Orders.ValidateOrder` | script.js:127-141 | an accepted order's summary carries the form's side, symbol (non-empty), type and quantity (>= 1); a MARKET order shows the market estimate, any other its positive entered price; it has a trigger part exactly for SL, holding the positive entered trigger |
| `Orders.FirstFailure` | script.js:128-131 | no error exactly when every rule holds |
| `Orders.FirstFailureIsFirst` | script.js:128-131 | a reported error is that of a failing rule all of whose predecessors hold |
| `Orders.ValidationIsFirstFailure` | script.js:128-131 | the handler rejects exactly when some rule fails, and reports the first failing rule in the order symbol, quantity, price, trigger |
| `Orders.FailureOrder` | script.js:128-131 | each message is given exactly when all earlier rules hold and its own fails (quantity below 1, zero or NaN; price only for non-MARKET; trigger only for SL) |
| `Orders.MarketIgnoresPriceAndTrigger` | script.js:130-139 | a MARKET order's outcome does not depend on its price or trigger fields, and its summary shows the market estimate |
| `Orders.LimitZeroPriceRejected` | script.js:130 | a LIMIT order with price 0 gets "Enter a valid price.", while the same MARKET order is accepted |
| `ProfitLoss.Calculate` | script.js:159-161 | aborts with the prompt exactly when entry, exit or qty is zero or NaN; otherwise profit = (exit - entry) * qty and percent * entry = (exit - entry) * 100 |
| `ProfitLoss.ProfitIsPercentOfPosition` | script.js:160-161 | profit * 100 = percent * entry * qty |
| `ProfitLoss.BreakEven` | script.js:160-161 | exit equal to entry gives zero profit and zero percent |
| `ProfitLoss.TenPercentExample` | script.js:159-162 | entry 100, exit 110, qty 10 gives profit 100 and 10 percent |
| `Watchlist.Read` | script.js:173-175 | reading gives the stored list, or the empty list when the entry is missing or unusable |
| `Watchlist.Added` | script.js:201-205 | the symbol is present afterwards; the old list is an unchanged prefix with at most one symbol appended; membership is the old plus the symbol; no duplicates are created |
| `Watchlist.AddIdempotent` | script.js:201-205 | adding a symbol twice is adding it once, for every list |
| `Watchlist.AddTwiceOccursOnce` | script.js:201-205 | in a list without duplicates, after adding a symbol twice it occurs exactly once |
| `Watchlist.Removed` | script.js:213 | the result has no occurrence of the symbol, holds exactly the other elements and is no longer than the list |
| `Watchlist.RemovedDistributes` | script.js:213 | removal works element by element over a concatenation, so kept elements keep their order |
| `Watchlist.RemovedAbsent` | script.js:213 | removing an absent symbol leaves the list equal |
| `Watchlist.RemovedCounts` | script.js:213 | the multiset of the result is the old one with the symbol's count set to 0 |
| `Watchlist.RemovedKeepsNoDuplicates` | script.js:213 | a list without duplicates stays without duplicates |
| `Watchlist.RemoveUndoesAdd` | script.js:201-214 | removing a newly added symbol gives back the list before the add |
| `Watchlist.WatchStore.SetWatch` | script.js:176-178 | the entry holds the list, and a later read gives it back |
| `Watchlist.WatchStore.Add` | script.js:197-208 | an empty or already-listed symbol leaves storage untouched (not even rewritten); otherwise the read list plus the symbol is written |
| `Watchlist.WatchStore.Remove` | script.js:210-216 | the read list without the symbol is always written back, even when nothing was removed |
| `Dashboard.Page.constructor` | script.js:1-10 | from 60 draws in [0, 1), the initial load: the four seeds, resolution 60, symbol AAPL, and a 60-point walk from AAPL's seed |
| `Dashboard.Page.Refresh` | script.js:71-74 | the series becomes exactly seriesLen points of a fresh walk from the current symbol's seed; everything else is unchanged |
| `Dashboard.Page.SelectSymbol` | script.js:76-80 | the chosen symbol becomes current and is charted afresh at the same resolution |
| `Dashboard.Page.SetResolution` | script.js:83-88 | the resolution changes and the current symbol is charted afresh at it |
| `Dashboard.Page.Tick` | script.js:91-100 | for a draw in [0, 1), the series becomes the tick of the old series with the draw's shock; no other field changes; the walk the chart shows gains that shock, which stays within the volatility |
| `Dashboard.Page.ChartFromWatchlist` | script.js:217-227 | a non-empty symbol becomes current, the seed table gains the default seed only for an unknown symbol, and the symbol is charted afresh |
| `Dashboard.LiveSeriesBounded` | script.js:91-98 | in every page state the series fits the resolution, every point is at least 1, and consecutive points differ by at most the current symbol's volatility |
| `Dashboard.MarketOrderUsesLastPoint` | script.js:134 | an accepted MARKET order made while a series is shown is summarised at that series' last point |

## Left out

- Chart drawing (`drawChart`, script.js:32-68): canvas calls, colours and
  axes only draw. The point normalisation divides by `max - min` and by
  `length - 1` unguarded, and the percent-change label is display only.
- `toFixed(2)` rounding and floating point: prices are exact reals, and no
  text is formatted. The order summary is a record, not the joined string.
- JSON encoding and decoding and `localStorage`: these are foreign library
  calls. They are abstracted as the `Option<Stored>` cell. A stored JSON
  value that parses to a truthy non-array, such as an object or a string,
  is not modelled. The script does not guard against it: `renderWatch`
  would fail on `forEach` (script.js:182). For a stored string, `includes`
  (script.js:202) would be a substring test, and `push` (script.js:203)
  would then fail.
- DOM plumbing: event wiring, `renderWatch`'s HTML, `showMsg`, form reset,
  field show/hide (script.js:112-116), writing the symbol input, and
  `window.scrollTo`.
- `setInterval` scheduling (script.js:91, 100): one tick is one method
  call. There is no concurrency.
- Trim and upper-case normalisation (script.js:125, 199): symbols are taken
  already normalised.
- `Number` parsing: `Infinity` and negative zero are not distinguished.
- Series.GenSeries: requires the symbol to have a seed, because
  `seeds[symbol]` would otherwise throw. The callers are the initial load,
  the select, the resolution buttons (script.js:86) and the chart button,
  and each of them passes a symbol that has a seed.
- Dashboard.Page.SelectSymbol: requires the selected symbol to have a seed.
  The select's options live in the page markup, which is not part of this
  model.
