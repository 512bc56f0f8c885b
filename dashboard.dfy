/** The page's global state (seed table, current series, resolution and
    symbol) and the handlers that change it: the initial load, the symbol
    select, the resolution buttons, the live-update timer and a watchlist
    row's chart button. */
module Dashboard {
  import opened Series
  import opened Orders

  /** Every seed starts at a price of at least 1 and has a non-negative
      volatility. */
  predicate SeedsWellFormed(seeds: map<string, Seed>) {
    forall k :: k in seeds ==> seeds[k].base >= 1.0 && seeds[k].vol >= 0.0
  }

  class Page {
    var seeds: map<string, Seed>
    var data: seq<real>
    var seriesLen: nat
    var currentSymbol: string
    /** The shocks applied since the series was last regenerated. */
    ghost var shocks: seq<real>

    /** The series on the chart is always the last seriesLen points of one
        random walk from the current symbol's seed, driven by shocks within
        that seed's volatility. */
    ghost predicate Valid()
      reads this
    {
      && currentSymbol in seeds
      && SeedsWellFormed(seeds)
      && data == LastN(Walk(seeds[currentSymbol].base, shocks), seriesLen)
      && WithinVolatility(shocks, seeds[currentSymbol].vol)
    }

    /** The initial load: the starting seeds, resolution 60, symbol AAPL, and
        a series generated from 60 draws. */
    constructor (initialDraws: seq<real>)
      requires |initialDraws| == 60 && AreDraws(initialDraws)
      ensures Valid()
      ensures seeds == InitialSeeds() && seriesLen == 60 && currentSymbol == "AAPL"
      ensures data == Walk(180.0, ShocksOf(initialDraws, 0.6))
    {
      seeds := InitialSeeds();
      data := [];
      seriesLen := 60;
      currentSymbol := "AAPL";
      shocks := [];
      new;
      Refresh(initialDraws);
    }

    /** `refresh`: regenerates the series for the current symbol at the
        current resolution, one point per draw. */
    method Refresh(newDraws: seq<real>)
      requires currentSymbol in seeds && SeedsWellFormed(seeds)
      requires |newDraws| == seriesLen && AreDraws(newDraws)
      modifies this
      ensures Valid()
      ensures data == Walk(seeds[currentSymbol].base, ShocksOf(newDraws, seeds[currentSymbol].vol))
      ensures |data| == seriesLen
      ensures seeds == old(seeds) && seriesLen == old(seriesLen) && currentSymbol == old(currentSymbol)
      ensures shocks == ShocksOf(newDraws, seeds[currentSymbol].vol)
    {
      data := GenSeries(seeds, currentSymbol, newDraws);
      shocks := ShocksOf(newDraws, seeds[currentSymbol].vol);
      DrawsGiveBoundedShocks(newDraws, seeds[currentSymbol].vol);
    }

    /** The symbol select: charts a symbol of the seed table afresh. */
    method SelectSymbol(sym: string, newDraws: seq<real>)
      requires Valid() && sym in seeds
      requires |newDraws| == seriesLen && AreDraws(newDraws)
      modifies this
      ensures Valid()
      ensures currentSymbol == sym && seeds == old(seeds) && seriesLen == old(seriesLen)
      ensures data == Walk(seeds[sym].base, ShocksOf(newDraws, seeds[sym].vol))
    {
      currentSymbol := sym;
      Refresh(newDraws);
    }

    /** A resolution button: sets the series length and regenerates. */
    method SetResolution(n: nat, newDraws: seq<real>)
      requires Valid()
      requires |newDraws| == n && AreDraws(newDraws)
      modifies this
      ensures Valid()
      ensures seriesLen == n && seeds == old(seeds) && currentSymbol == old(currentSymbol)
      ensures data == Walk(seeds[currentSymbol].base, ShocksOf(newDraws, seeds[currentSymbol].vol))
    {
      seriesLen := n;
      Refresh(newDraws);
    }

    /** One firing of the live-update timer: nothing on an empty series;
        otherwise one point stepped from the last is appended and the
        oldest dropped once the series exceeds the resolution. The walk
        the chart shows is extended by the draw. */
    method Tick(u: real)
      requires Valid() && IsDraw(u)
      modifies this
      ensures Valid()
      ensures seeds == old(seeds) && seriesLen == old(seriesLen) && currentSymbol == old(currentSymbol)
      ensures data == TickSeries(old(data), Shock(u, seeds[currentSymbol].vol), seriesLen)
      ensures shocks == if old(data) == [] then old(shocks) else old(shocks) + [Shock(u, seeds[currentSymbol].vol)]
    {
      if |data| == 0 {
        return;
      }
      var last := data[|data| - 1];
      var vol := seeds[currentSymbol].vol;
      var shock := Shock(u, vol);
      var next := Max(1.0, last + shock);
      assert next == Step(last, shock);
      TickExtendsWalk(data, seeds[currentSymbol].base, shocks, shock, seriesLen);
      ghost var extended := data + [next];
      data := data + [next];
      if |data| > seriesLen {
        data := data[1..];
      }
      assert data == Evict(extended, seriesLen);
      ShockWithinVolatility(u, vol);
      WithinVolatilitySnoc(shocks, vol, shock);
      shocks := shocks + [shock];
    }

    /** A watchlist row's chart button: an unknown symbol first gets the
        default seed, then the symbol is charted afresh at the current
        resolution. A button with an empty symbol does nothing. */
    method ChartFromWatchlist(sym: string, newDraws: seq<real>)
      requires Valid()
      requires |newDraws| == seriesLen && AreDraws(newDraws)
      modifies this
      ensures Valid()
      ensures sym == [] ==> seeds == old(seeds) && data == old(data) && currentSymbol == old(currentSymbol)
      ensures sym != [] ==> currentSymbol == sym && seeds == WithDefaultSeed(old(seeds), sym)
      ensures sym != [] ==> data == Walk(seeds[sym].base, ShocksOf(newDraws, seeds[sym].vol))
      ensures seriesLen == old(seriesLen)
    {
      if sym == [] {
        return;
      }
      currentSymbol := sym;
      if sym !in seeds {
        seeds := seeds[sym := DefaultSeed];
      }
      Refresh(newDraws);
    }
  }

  /** In every page state the series fits the resolution, every point is at
      least 1, and consecutive points differ by at most the volatility. */
  lemma LiveSeriesBounded(p: Page)
    requires p.Valid()
    ensures |p.data| <= p.seriesLen
    ensures Floored(p.data)
    ensures Smooth(p.data, p.seeds[p.currentSymbol].vol)
  {
    var seed := p.seeds[p.currentSymbol];
    WindowWithinVolatility(p.data, seed.base, seed.vol, p.shocks, p.seriesLen);
  }

  /** A MARKET order submitted while a series is on the chart is summarised
      at the series' last point. */
  lemma MarketOrderUsesLastPoint(p: Page, f: OrderForm)
    requires p.Valid() && p.data != [] && f.kind == Market
    requires ValidateOrder(f, p.data, p.seeds).Success?
    ensures ValidateOrder(f, p.data, p.seeds).value.price == AtMarket(p.data[|p.data| - 1])
  {
    var seed := p.seeds[p.currentSymbol];
    WalkIsFloored(seed.base, p.shocks);
    WindowIsFloored(Walk(seed.base, p.shocks), p.seriesLen);
    MarketIgnoresPriceAndTrigger(f, f.price, f.trigger, p.data, p.seeds);
  }
}
