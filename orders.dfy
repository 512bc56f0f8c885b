/** The order form's submit handler: fail-fast validation of a simulated
    order and the summary shown when it is accepted. */
module Orders {
  import opened Wrappers
  import opened FormInput
  import opened Series

  datatype Side = Buy | Sell

  /** The order-type select, one constructor per option value. */
  datatype OrderType = Market | Limit | SL

  /** The form as read on submit; the symbol is already trimmed and upper-cased. */
  datatype OrderForm = OrderForm(side: Side, kind: OrderType, qty: Num, price: Num, trigger: Num, symbol: string)

  /** The validation failures, one per guarded early return. */
  datatype OrderError = InvalidSymbol | InvalidQty | InvalidPrice | InvalidTrigger

  function Message(e: OrderError): string {
    match e
    case InvalidSymbol => "Enter a valid symbol."
    case InvalidQty => "Quantity must be at least 1."
    case InvalidPrice => "Enter a valid price."
    case InvalidTrigger => "Enter a valid trigger."
  }

  /** The price part of a summary: the market-price estimate for a MARKET
      order, the entered price otherwise. */
  datatype PriceShown = AtMarket(estimate: real) | AtPrice(price: real)

  /** The parts of the confirmation text, without number formatting. */
  datatype Summary = Summary(side: Side, symbol: string, kind: OrderType, qty: real,
                             price: PriceShown, trigger: Option<real>)

  /** The market-price proxy `data[last] || seeds[symbol]?.base || 100`:
      each candidate is skipped when it is missing or zero. */
  function MarketPrice(data: seq<real>, seeds: map<string, Seed>, symbol: string): (lp: real)
    ensures lp != 0.0
    ensures data != [] && data[|data| - 1] != 0.0 ==> lp == data[|data| - 1]
    ensures lp == LastOr(data, 0.0) || (symbol in seeds && lp == seeds[symbol].base) || lp == 100.0
  {
    if data != [] && data[|data| - 1] != 0.0 then data[|data| - 1]
    else if symbol in seeds && seeds[symbol].base != 0.0 then seeds[symbol].base
    else 100.0
  }

  /** The submit handler's checks in source order. */
  function ValidateOrder(f: OrderForm, data: seq<real>, seeds: map<string, Seed>): (r: Result<Summary, OrderError>)
    ensures r.Success? ==> r.value.qty >= 1.0 && r.value.symbol == f.symbol && r.value.symbol != []
    ensures r.Success? ==> (r.value.trigger.Some? <==> f.kind == SL)
    ensures r.Success? && f.kind != Market ==> Positive(f.price) && r.value.price == AtPrice(f.price.v)
    ensures r.Success? && f.kind == SL ==> Positive(f.trigger) && r.value.trigger == Some(f.trigger.v)
    ensures r.Success? ==> f.qty.Finite? && r.value.qty == f.qty.v && r.value.side == f.side && r.value.kind == f.kind
    ensures r.Success? && f.kind == Market ==> r.value.price == AtMarket(MarketPrice(data, seeds, f.symbol))
  {
    if f.symbol == [] then Failure(InvalidSymbol)
    else if Falsy(f.qty) || f.qty.v < 1.0 then Failure(InvalidQty)
    else if f.kind != Market && (Falsy(f.price) || f.price.v <= 0.0) then Failure(InvalidPrice)
    else if f.kind == SL && (Falsy(f.trigger) || f.trigger.v <= 0.0) then Failure(InvalidTrigger)
    else
      var shown := if f.kind == Market then AtMarket(MarketPrice(data, seeds, f.symbol)) else AtPrice(f.price.v);
      var trig := if f.kind == SL then Some(f.trigger.v) else None;
      Success(Summary(f.side, f.symbol, f.kind, f.qty.v, shown, trig))
  }

  /** One validation rule: whether the form passes it, and the error it
      reports when it does not. */
  datatype Rule = Rule(holds: bool, error: OrderError)

  /** The rules of an order form, stated positively and independently of
      the handler's guards, in the order the handler checks them. */
  function Rules(f: OrderForm): seq<Rule> {
    [ Rule(f.symbol != [], InvalidSymbol),
      Rule(f.qty.Finite? && f.qty.v >= 1.0, InvalidQty),
      Rule(f.kind == Market || Positive(f.price), InvalidPrice),
      Rule(f.kind != SL || Positive(f.trigger), InvalidTrigger) ]
  }

  /** The error of the first rule that does not hold, if any. */
  function FirstFailure(rules: seq<Rule>): (r: Option<OrderError>)
    ensures r.None? <==> forall i :: 0 <= i < |rules| ==> rules[i].holds
    decreases |rules|
  {
    if rules == [] then None
    else if !rules[0].holds then Some(rules[0].error)
    else FirstFailure(rules[1..])
  }

  /** A reported error is that of a failing rule all of whose predecessors
      hold. */
  lemma {:induction false} FirstFailureIsFirst(rules: seq<Rule>)
    ensures FirstFailure(rules).Some? ==>
              exists i :: 0 <= i < |rules| && !rules[i].holds && FirstFailure(rules).value == rules[i].error
                          && forall j :: 0 <= j < i ==> rules[j].holds
    decreases |rules|
  {
    if rules != [] && rules[0].holds && FirstFailure(rules).Some? {
      var tail := rules[1..];
      FirstFailureIsFirst(tail);
      var i :| 0 <= i < |tail| && !tail[i].holds && FirstFailure(tail).value == tail[i].error
               && forall j :: 0 <= j < i ==> tail[j].holds;
      forall j | 0 <= j < i + 1
        ensures rules[j].holds
      {
        if j > 0 {
          assert rules[j] == tail[j - 1];
        }
      }
      assert rules[i + 1] == tail[i];
    }
  }

  /** Fail-fast: the handler rejects a form exactly when some rule fails,
      and reports the first failing rule alone. */
  lemma ValidationIsFirstFailure(f: OrderForm, data: seq<real>, seeds: map<string, Seed>)
    ensures ValidateOrder(f, data, seeds).Failure? <==> FirstFailure(Rules(f)).Some?
    ensures ValidateOrder(f, data, seeds).Failure? ==>
              ValidateOrder(f, data, seeds).error == FirstFailure(Rules(f)).value
  {
    var rs := Rules(f);
    assert FirstFailure(rs) == if !rs[0].holds then Some(rs[0].error) else FirstFailure(rs[1..]);
    assert FirstFailure(rs[1..]) == if !rs[1].holds then Some(rs[1].error) else FirstFailure(rs[2..]);
    assert FirstFailure(rs[2..]) == if !rs[2].holds then Some(rs[2].error) else FirstFailure(rs[3..]);
    assert FirstFailure(rs[3..]) == if !rs[3].holds then Some(rs[3].error) else FirstFailure(rs[4..]);
    assert rs[4..] == [];
  }

  /** Each message is reported exactly when every earlier rule holds and
      its own rule fails. */
  lemma FailureOrder(f: OrderForm, data: seq<real>, seeds: map<string, Seed>)
    ensures ValidateOrder(f, data, seeds) == Failure(InvalidSymbol) <==> f.symbol == []
    ensures ValidateOrder(f, data, seeds) == Failure(InvalidQty)
            <==> f.symbol != [] && !(f.qty.Finite? && f.qty.v >= 1.0)
    ensures ValidateOrder(f, data, seeds) == Failure(InvalidPrice)
            <==> f.symbol != [] && f.qty.Finite? && f.qty.v >= 1.0
                 && f.kind != Market && !Positive(f.price)
    ensures ValidateOrder(f, data, seeds) == Failure(InvalidTrigger)
            <==> f.symbol != [] && f.qty.Finite? && f.qty.v >= 1.0
                 && (f.kind == Market || Positive(f.price)) && f.kind == SL && !Positive(f.trigger)
  {
  }

  /** A MARKET order's outcome does not depend on the price or trigger
      fields, and an accepted one is summarised at the market estimate. */
  lemma MarketIgnoresPriceAndTrigger(f: OrderForm, price: Num, trigger: Num, data: seq<real>, seeds: map<string, Seed>)
    requires f.kind == Market
    ensures ValidateOrder(f, data, seeds) == ValidateOrder(f.(price := price, trigger := trigger), data, seeds)
    ensures ValidateOrder(f, data, seeds).Success? ==>
              ValidateOrder(f, data, seeds).value.price == AtMarket(MarketPrice(data, seeds, f.symbol))
  {
  }

  /** A LIMIT order with a zero or missing price is rejected with the price
      message once symbol and quantity are valid, while the same MARKET
      order is accepted. */
  lemma LimitZeroPriceRejected(side: Side, qty: real, trigger: Num, symbol: string, data: seq<real>, seeds: map<string, Seed>)
    requires symbol != [] && qty >= 1.0
    ensures Message(ValidateOrder(OrderForm(side, Limit, Finite(qty), Finite(0.0), trigger, symbol), data, seeds).error)
            == "Enter a valid price."
    ensures ValidateOrder(OrderForm(side, Market, Finite(qty), Finite(0.0), trigger, symbol), data, seeds).Success?
  {
  }

  /** In the page's own states (every point of the series at least 1, every
      seed's base positive) the market estimate is the last point, else the
      symbol's base, else 100. */
  lemma MarketPriceInPageState(data: seq<real>, seeds: map<string, Seed>, symbol: string)
    requires forall i :: 0 <= i < |data| ==> data[i] >= 1.0
    requires forall k :: k in seeds ==> seeds[k].base > 0.0
    ensures data != [] ==> MarketPrice(data, seeds, symbol) == data[|data| - 1]
    ensures data == [] && symbol in seeds ==> MarketPrice(data, seeds, symbol) == seeds[symbol].base
    ensures data == [] && symbol !in seeds ==> MarketPrice(data, seeds, symbol) == 100.0
  {
  }
}
