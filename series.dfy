/** The simulated price series: the seed table, the random walk that
    generates a series, and the live tick that extends it as a bounded
    first-in first-out window. */
module Series {

  /** Static configuration of one symbol: starting price and volatility. */
  datatype Seed = Seed(base: real, vol: real)

  /** The seed given to a symbol charted from the watchlist that has none. */
  const DefaultSeed := Seed(100.0, 0.8)

  /** The seed table the page starts with. */
  function InitialSeeds(): map<string, Seed> {
    map["AAPL" := Seed(180.0, 0.6), "MSFT" := Seed(380.0, 0.5),
        "GOOGL" := Seed(140.0, 0.7), "TSLA" := Seed(250.0, 1.2)]
  }

  function Max(a: real, b: real): real {
    if a >= b then a else b
  }

  function Abs(x: real): real {
    if x >= 0.0 then x else -x
  }

  /** A draw of the random source, `Math.random()`: a number in [0, 1). */
  predicate IsDraw(u: real) {
    0.0 <= u < 1.0
  }

  predicate AreDraws(us: seq<real>) {
    forall i :: 0 <= i < |us| ==> IsDraw(us[i])
  }

  /** The shock a draw u produces: `(u - 0.5) * vol * 2`. */
  function Shock(u: real, vol: real): real {
    (u - 0.5) * vol * 2.0
  }

  /** A draw of the random source gives a shock within [-vol, +vol]. */
  lemma ShockWithinVolatility(u: real, vol: real)
    requires IsDraw(u) && vol >= 0.0
    ensures -vol <= Shock(u, vol) <= vol
  {
    var d := u - 0.5;
    assert -0.5 <= d < 0.5;
    assert d * vol <= 0.5 * vol by {
      assert (0.5 - d) * vol >= 0.0;
    }
    assert d * vol >= -0.5 * vol by {
      assert (d + 0.5) * vol >= 0.0;
    }
  }

  /** The shocks a sequence of draws produces for a volatility. */
  function ShocksOf(draws: seq<real>, vol: real): (shocks: seq<real>)
    ensures |shocks| == |draws|
    ensures forall i :: 0 <= i < |draws| ==> shocks[i] == Shock(draws[i], vol)
  {
    seq(|draws|, i requires 0 <= i < |draws| => Shock(draws[i], vol))
  }

  /** Every shock lies within [-vol, +vol]. */
  predicate WithinVolatility(shocks: seq<real>, vol: real) {
    forall i :: 0 <= i < |shocks| ==> -vol <= shocks[i] <= vol
  }

  /** One more shock within the volatility keeps all shocks within it. */
  lemma WithinVolatilitySnoc(shocks: seq<real>, vol: real, x: real)
    requires WithinVolatility(shocks, vol) && -vol <= x <= vol
    ensures WithinVolatility(shocks + [x], vol)
  {
  }

  /** Draws of the random source give shocks within the volatility. */
  lemma DrawsGiveBoundedShocks(draws: seq<real>, vol: real)
    requires AreDraws(draws) && vol >= 0.0
    ensures WithinVolatility(ShocksOf(draws, vol), vol)
  {
    forall i | 0 <= i < |draws|
      ensures -vol <= ShocksOf(draws, vol)[i] <= vol
    {
      ShockWithinVolatility(draws[i], vol);
    }
  }

  /** One step of the walk: previous price plus shock, floored at 1, so
      never below 1 and never below the unfloored sum. */
  function Step(p: real, shock: real): (q: real)
    ensures q >= 1.0
    ensures q >= p + shock
  {
    Max(1.0, p + shock)
  }

  /** From a price of at least 1 a step moves the price by no more than
      the shock: the floor only ever shortens a downward move. */
  lemma StepMovesAtMostShock(p: real, shock: real)
    requires p >= 1.0
    ensures Abs(Step(p, shock) - p) <= Abs(shock)
  {
  }

  /** The series `genSeries` pushes when it starts from price p: one point
      per shock, each the step from the point before it. */
  function Walk(p: real, shocks: seq<real>): (s: seq<real>)
    ensures |s| == |shocks|
    decreases |shocks|
  {
    if shocks == [] then []
    else
      var q := Step(p, shocks[0]);
      [q] + Walk(q, shocks[1..])
  }

  /** The last point of s, or d when s is empty. */
  function LastOr(s: seq<real>, d: real): real {
    if s == [] then d else s[|s| - 1]
  }

  /** Every point is at least 1. */
  predicate Floored(s: seq<real>) {
    forall i :: 0 <= i < |s| ==> s[i] >= 1.0
  }

  /** Every point of a generated series is at least 1. */
  lemma {:induction false} WalkIsFloored(p: real, shocks: seq<real>)
    ensures Floored(Walk(p, shocks))
    decreases |shocks|
  {
    if shocks != [] {
      WalkIsFloored(Step(p, shocks[0]), shocks[1..]);
    }
  }

  /** Point i of a generated series is the step from point i - 1; the point
      before the first is the seed's base, so the first point is already
      shocked. */
  lemma {:induction false} WalkPointIsStep(p: real, shocks: seq<real>, i: nat)
    requires i < |shocks|
    ensures Walk(p, shocks)[i] == Step(if i == 0 then p else Walk(p, shocks)[i - 1], shocks[i])
    decreases i
  {
    if i > 0 {
      WalkPointIsStep(Step(p, shocks[0]), shocks[1..], i - 1);
    }
  }

  /** Extending the shocks by one extends the walk by one step from its
      last point. */
  lemma {:induction false} WalkSnoc(p: real, shocks: seq<real>, x: real)
    ensures Walk(p, shocks + [x]) == Walk(p, shocks) + [Step(LastOr(Walk(p, shocks), p), x)]
    decreases |shocks|
  {
    if shocks == [] {
      assert shocks + [x] == [x];
    } else {
      assert (shocks + [x])[1..] == shocks[1..] + [x];
      WalkSnoc(Step(p, shocks[0]), shocks[1..], x);
    }
  }

  /** With shocks within the volatility, consecutive points of a series
      generated from a base of at least 1 differ by at most the volatility. */
  lemma WalkStepsWithinVolatility(base: real, vol: real, shocks: seq<real>, i: nat)
    requires base >= 1.0 && WithinVolatility(shocks, vol)
    requires i < |shocks|
    ensures Abs(Walk(base, shocks)[i] - (if i == 0 then base else Walk(base, shocks)[i - 1])) <= vol
  {
    WalkPointIsStep(base, shocks, i);
    WalkIsFloored(base, shocks);
    StepMovesAtMostShock(if i == 0 then base else Walk(base, shocks)[i - 1], shocks[i]);
  }

  /** `genSeries`: looks up the symbol's seed and runs the walk from its
      base, one point per draw of the random source (the source's length n
      is |draws|). */
  method GenSeries(seeds: map<string, Seed>, symbol: string, draws: seq<real>) returns (arr: seq<real>)
    requires symbol in seeds
    ensures arr == Walk(seeds[symbol].base, ShocksOf(draws, seeds[symbol].vol))
  {
    var base, vol := seeds[symbol].base, seeds[symbol].vol;
    ghost var shocks := ShocksOf(draws, vol);
    arr := [];
    var p := base;
    for i := 0 to |draws|
      invariant arr == Walk(base, shocks[..i])
      invariant p == LastOr(arr, base)
    {
      var shock := Shock(draws[i], vol);
      WalkSnoc(base, shocks[..i], shock);
      assert shocks[..i + 1] == shocks[..i] + [shock];
      p := Max(1.0, p + shock);
      arr := arr + [p];
    }
    assert shocks[..|draws|] == shocks;
  }

  /** Drops the oldest point once the series is longer than n (one shift). */
  function Evict(s: seq<real>, n: nat): seq<real> {
    if |s| > n then s[1..] else s
  }

  /** The live tick on a series: nothing on an empty series, otherwise one
      new point stepped from the last one is appended and, when that makes
      the series longer than n, only the oldest point is dropped. */
  function TickSeries(data: seq<real>, shock: real, n: nat): (r: seq<real>)
    ensures data == [] ==> r == []
    ensures |data| <= n ==> |r| <= n
    ensures data != [] ==> r != [] && r[|r| - 1] == Step(data[|data| - 1], shock)
    ensures data != [] && |data| < n ==> |r| == |data| + 1 && r[..|data|] == data
    ensures data != [] && |data| >= n ==> |r| == |data| && r[..|r| - 1] == data[1..]
  {
    if data == [] then data
    else Evict(data + [Step(data[|data| - 1], shock)], n)
  }

  /** A sequence of ticks, one per shock. */
  function Ticks(data: seq<real>, shocks: seq<real>, n: nat): seq<real>
    decreases |shocks|
  {
    if shocks == [] then data else Ticks(TickSeries(data, shocks[0], n), shocks[1..], n)
  }

  /** The last n points of s (all of s when it is shorter). */
  function LastN(s: seq<real>, n: nat): (r: seq<real>)
    ensures |r| <= n && |r| <= |s|
    ensures |s| >= n ==> |r| == n
    ensures r == s[|s| - |r|..]
  {
    if |s| > n then s[|s| - n..] else s
  }

  /** A tick on the last n points of a series is the last n points of the
      series one step longer. */
  lemma TickOnWindow(s: seq<real>, x: real, n: nat)
    requires s != [] && n >= 1
    ensures TickSeries(LastN(s, n), x, n) == LastN(s + [Step(s[|s| - 1], x)], n)
  {
  }

  /** One tick on a non-empty window of a walk gives the window of the walk
      extended by the tick's shock. */
  lemma TickExtendsWalk(data: seq<real>, base: real, shocks: seq<real>, x: real, n: nat)
    requires data == LastN(Walk(base, shocks), n) && data != []
    ensures TickSeries(data, x, n) == Evict(data + [Step(data[|data| - 1], x)], n)
    ensures TickSeries(data, x, n) == LastN(Walk(base, shocks + [x]), n)
  {
    TickOnWindow(Walk(base, shocks), x, n);
    WalkSnoc(base, shocks, x);
  }

  /** How far point i moved from point i - 1. */
  function Move(s: seq<real>, i: nat): real
    requires 1 <= i < |s|
  {
    Abs(s[i] - s[i - 1])
  }

  /** Consecutive points differ by at most vol. */
  predicate Smooth(s: seq<real>, vol: real) {
    forall i :: 1 <= i < |s| ==> Move(s, i) <= vol
  }

  /** A walk from a base of at least 1 with shocks within the volatility
      moves by at most the volatility from one point to the next. */
  lemma WalkIsSmooth(base: real, vol: real, shocks: seq<real>)
    requires base >= 1.0 && WithinVolatility(shocks, vol)
    ensures Smooth(Walk(base, shocks), vol)
  {
    forall i | 1 <= i < |shocks|
      ensures Move(Walk(base, shocks), i) <= vol
    {
      WalkStepsWithinVolatility(base, vol, shocks, i);
    }
  }

  /** The last n points of a floored series are floored. */
  lemma WindowIsFloored(s: seq<real>, n: nat)
    requires Floored(s)
    ensures Floored(LastN(s, n))
  {
  }

  /** The last n points of a smooth series are smooth. */
  lemma WindowIsSmooth(s: seq<real>, vol: real, n: nat)
    requires Smooth(s, vol)
    ensures Smooth(LastN(s, n), vol)
  {
    var w := LastN(s, n);
    var k := |s| - |w|;
    forall i | 1 <= i < |w|
      ensures Move(w, i) <= vol
    {
      assert Move(s, k + i) <= vol;
      assert w[i] == s[k + i] && w[i - 1] == s[k + i - 1];
    }
  }

  /** Every window of a walk from a base of at least 1 with shocks within
      the volatility has points of at least 1 that move by at most the
      volatility from one to the next. */
  lemma WindowWithinVolatility(data: seq<real>, base: real, vol: real, shocks: seq<real>, n: nat)
    requires data == LastN(Walk(base, shocks), n)
    requires base >= 1.0 && WithinVolatility(shocks, vol)
    ensures |data| <= n && Floored(data) && Smooth(data, vol)
  {
    var w := Walk(base, shocks);
    WalkIsFloored(base, shocks);
    WalkIsSmooth(base, vol, shocks);
    WindowIsFloored(w, n);
    WindowIsSmooth(w, vol, n);
  }

  /** The live chart keeps showing one random walk: ticking the last n
      points of a walk with further shocks gives the last n points of the
      walk over all the shocks. */
  lemma {:induction false} TicksContinueWalk(base: real, shocks: seq<real>, more: seq<real>, n: nat)
    requires shocks != [] && n >= 1
    ensures Ticks(LastN(Walk(base, shocks), n), more, n) == LastN(Walk(base, shocks + more), n)
    decreases |more|
  {
    if more == [] {
      assert shocks + more == shocks;
    } else {
      var x := more[0];
      TickExtendsWalk(LastN(Walk(base, shocks), n), base, shocks, x, n);
      assert shocks + more == (shocks + [x]) + more[1..];
      TicksContinueWalk(base, shocks + [x], more[1..], n);
    }
  }

  /** The seed table after charting a symbol from the watchlist: an unknown
      symbol gets the default seed, a known one keeps its seed, and no
      other symbol's seed changes. */
  function WithDefaultSeed(seeds: map<string, Seed>, symbol: string): (r: map<string, Seed>)
    ensures r.Keys == seeds.Keys + {symbol}
    ensures symbol !in seeds ==> r[symbol] == DefaultSeed
    ensures forall k :: k in seeds ==> r[k] == seeds[k]
  {
    if symbol !in seeds then seeds[symbol := DefaultSeed] else seeds
  }
}
