/**
 * The moving-average crossover simulator of `simulate_trading_strategy`:
 * a single forward pass over the bars from `longWindow` on, holding either
 * only cash (flat) or only shares (long), buying with all cash when the
 * short average crosses above the long one and selling every share when it
 * crosses below, and recording a mark-to-market equity curve and a sparse
 * per-bar trade list.
 */
module Strategy {
  import opened Wrappers
  import opened MovingAverage

  /** A closing price. The simulator divides cash by it, and the prices of a traded instrument are positive. */
  type Price = r: real | r > 0.0 witness 1.0

  datatype Side = Buy | Sell

  /** A recorded trade: the `{"side": ..., "price": ...}` entry of the trade list. */
  datatype Trade = Trade(side: Side, price: Price)

  /** The simulator's two running variables. */
  datatype Portfolio = Portfolio(cash: real, shares: real)

  /** What the simulator returns: the equity curve and the trade list, one entry per bar. */
  datatype Backtest = Backtest(equity: seq<real>, trades: seq<Option<Trade>>)

  /**
   * The two ways the simulator stops without a result: the `ValueError` for
   * capital below the opening price, and the `TypeError` raised when the
   * previous bar's short average is still `None` while the current one is
   * defined (possible only when the short window exceeds the long one).
   */
  datatype Failure = CapitalTooLow | UndefinedAverage

  /** The portfolio after one bar, and the trade recorded at it, if any. */
  datatype Step = Step(after: Portfolio, trade: Option<Trade>)

  /** Mark-to-market value of a portfolio at a price. */
  function Value(p: Portfolio, price: real): real
  {
    p.cash + p.shares * price
  }

  /** Carrying out a trade: a BUY turns all cash into shares, a SELL all shares into cash. */
  function Execute(p: Portfolio, t: Trade): Portfolio
  {
    match t.side
    case Buy => Portfolio(0.0, p.cash / t.price)
    case Sell => Portfolio(p.shares * t.price, 0.0)
  }

  /**
   * The decision at one bar, given the difference of the two averages at
   * this bar and at the previous one.
   */
  function ApplySignal(p: Portfolio, diff: real, prevDiff: real, price: Price): (s: Step)
    ensures s.trade == Some(Trade(Buy, price)) <==> p.shares == 0.0 && diff > 0.0 && prevDiff <= 0.0
    ensures s.trade == Some(Trade(Sell, price)) <==> p.shares > 0.0 && diff < 0.0 && prevDiff >= 0.0
    ensures s.trade.Some? ==> s.trade.value.price == price && s.after == Execute(p, s.trade.value)
    ensures s.trade.None? ==> s.after == p
    ensures p.cash == 0.0 || p.shares == 0.0 ==> Value(s.after, price) == Value(p, price)
  {
    if p.shares == 0.0 && diff > 0.0 && prevDiff <= 0.0 then
      Step(Execute(p, Trade(Buy, price)), Some(Trade(Buy, price)))
    else if p.shares > 0.0 && diff < 0.0 && prevDiff >= 0.0 then
      Step(Execute(p, Trade(Sell, price)), Some(Trade(Sell, price)))
    else
      Step(p, None)
  }

  /**
   * The portfolio reconstructed from a trade list alone: start with all
   * capital in cash and carry out the recorded trades in order.
   */
  function Replay(capital: real, log: seq<Option<Trade>>): Portfolio
    decreases |log|
  {
    if log == [] then Portfolio(capital, 0.0)
    else
      var before := Replay(capital, log[..|log| - 1]);
      match log[|log| - 1]
      case None => before
      case Some(t) => Execute(before, t)
  }

  /** A trade list without trades replays to the starting portfolio. */
  lemma {:induction false} ReplayNoTrades(capital: real, log: seq<Option<Trade>>)
    requires forall k :: 0 <= k < |log| ==> log[k].None?
    ensures Replay(capital, log) == Portfolio(capital, 0.0)
    decreases |log|
  {
    if log != [] {
      ReplayNoTrades(capital, log[..|log| - 1]);
    }
  }

  /**
   * Recording entry `e` at an empty slot `i` of a trade list (nothing when
   * `e` is `None`): the prefix through `i` replays to the earlier prefix's
   * portfolio with that trade carried out.
   */
  lemma ReplayRecord(capital: real, log: seq<Option<Trade>>, i: int, e: Option<Trade>)
    requires 0 <= i < |log| && log[i] == None
    ensures Replay(capital, (if e.Some? then log[i := e] else log)[..i + 1])
         == if e.Some? then Execute(Replay(capital, log[..i]), e.value) else Replay(capital, log[..i])
  {
    var next := if e.Some? then log[i := e] else log;
    assert next[..i + 1][..i] == log[..i];
  }

  /** The actual trades of a sparse trade list, in order. */
  function Filled(log: seq<Option<Trade>>): seq<Trade>
    decreases |log|
  {
    if log == [] then []
    else Filled(log[..|log| - 1]) + (match log[|log| - 1] case None => [] case Some(t) => [t])
  }

  /** The trades go BUY, SELL, BUY, ... starting with a BUY. */
  ghost predicate Alternates(ts: seq<Trade>)
  {
    forall k :: 0 <= k < |ts| ==> ts[k].side == if k % 2 == 0 then Buy else Sell
  }

  /** No negative cash or shares, and never both cash and shares at once. */
  ghost predicate Sound(p: Portfolio)
  {
    p.cash >= 0.0 && p.shares >= 0.0 && (p.cash == 0.0 || p.shares == 0.0)
  }

  /**
   * The simulator's loop from bar `i` on, with `pos` the running cash and
   * shares and `equity`, `trades` the two lists as written so far.
   */
  function Run(closes: seq<Price>, shortSma: seq<Option<real>>, longSma: seq<Option<real>>,
               i: int, pos: Portfolio, equity: seq<real>, trades: seq<Option<Trade>>): (r: Result<Backtest, Failure>)
    requires |shortSma| == |closes| && |longSma| == |closes|
    requires |equity| == |closes| && |trades| == |closes|
    requires 1 <= i
    ensures r.Ok? ==> |r.value.equity| == |closes| && |r.value.trades| == |closes|
    ensures r.Err? ==> r.error == UndefinedAverage
    decreases |closes| - i
  {
    if i >= |closes| then Ok(Backtest(equity, trades))
    else if shortSma[i].None? || longSma[i].None? then
      Run(closes, shortSma, longSma, i + 1, pos, equity, trades)
    else if shortSma[i - 1].None? || longSma[i - 1].None? then
      Err(UndefinedAverage)
    else
      var step := ApplySignal(pos, shortSma[i].value - longSma[i].value,
                              shortSma[i - 1].value - longSma[i - 1].value, closes[i]);
      Run(closes, shortSma, longSma, i + 1, step.after,
          equity[i := Value(step.after, closes[i])],
          if step.trade.Some? then trades[i := step.trade] else trades)
  }

  /** The whole simulation: the capital check, then the loop from `longWindow` with everything in cash. */
  function Simulate(closes: seq<Price>, shortWindow: int, longWindow: int, capital: real, openPrice: real): Result<Backtest, Failure>
    requires 0 < shortWindow && 0 < longWindow
  {
    if capital < openPrice then Err(CapitalTooLow)
    else
      Run(closes, SmaSeries(closes, shortWindow), SmaSeries(closes, longWindow), longWindow,
          Portfolio(capital, 0.0), seq(|closes|, _ => capital), seq(|closes|, _ => None))
  }

  /** One bar's decision keeps a sound portfolio sound. */
  lemma ApplySignalSound(p: Portfolio, diff: real, prevDiff: real, price: Price)
    requires Sound(p)
    ensures Sound(ApplySignal(p, diff, prevDiff, price).after)
  {
  }

  /**
   * `simulate_trading_strategy`: the capital check, the two average series,
   * then the trading loop.
   */
  method SimulateTradingStrategy(closes: seq<Price>, shortWindow: int, longWindow: int, capital: real, openPrice: real)
    returns (r: Result<Backtest, Failure>)
    requires 0 < shortWindow && 0 < longWindow
    ensures r == Simulate(closes, shortWindow, longWindow, capital, openPrice)
    ensures r == Err(CapitalTooLow) <==> capital < openPrice
  {
    if capital < openPrice {
      return Err(CapitalTooLow);
    }
    var shortSma := CalculateSmaSeries(closes, shortWindow);
    var longSma := CalculateSmaSeries(closes, longWindow);
    r := TradingLoop(closes, shortSma, longSma, longWindow, capital);
  }

  /**
   * The loop of `simulate_trading_strategy` over the pre-filled equity and
   * trade lists: the cash and shares it holds on reaching bar `i` are the
   * replay of the trades recorded before `i`, and, from non-negative
   * capital, never negative and never both non-zero.
   */
  method TradingLoop(closes: seq<Price>, shortSma: seq<Option<real>>, longSma: seq<Option<real>>,
                     longWindow: int, capital: real) returns (r: Result<Backtest, Failure>)
    requires |shortSma| == |closes| && |longSma| == |closes| && 0 < longWindow
    ensures r == Run(closes, shortSma, longSma, longWindow, Portfolio(capital, 0.0),
                     seq(|closes|, _ => capital), seq(|closes|, _ => None))
  {
    var cash := capital;
    var equityCurve: seq<real> := seq(|closes|, _ => capital);
    var trades: seq<Option<Trade>> := seq(|closes|, _ => None);
    var shares := 0.0;
    ghost var spec := Run(closes, shortSma, longSma, longWindow, Portfolio(cash, shares), equityCurve, trades);
    if longWindow <= |closes| {
      ReplayNoTrades(capital, trades[..longWindow]);
    }

    var i := longWindow;
    while i < |closes|
      invariant longWindow <= i && (i <= |closes| || i == longWindow)
      invariant |equityCurve| == |closes| && |trades| == |closes|
      invariant Run(closes, shortSma, longSma, i, Portfolio(cash, shares), equityCurve, trades) == spec
      invariant forall k :: i <= k < |closes| ==> trades[k] == None
      invariant i <= |closes| ==> Portfolio(cash, shares) == Replay(capital, trades[..i])
      invariant 0.0 <= capital ==> Sound(Portfolio(cash, shares))
      decreases |closes| - i
    {
      if shortSma[i].None? || longSma[i].None? {
        ReplayRecord(capital, trades, i, None);
        i := i + 1;
        continue;
      }
      if shortSma[i - 1].None? || longSma[i - 1].None? {
        return Err(UndefinedAverage);
      }
      var diff := shortSma[i].value - longSma[i].value;
      var prevDiff := shortSma[i - 1].value - longSma[i - 1].value;
      if 0.0 <= capital {
        ApplySignalSound(Portfolio(cash, shares), diff, prevDiff, closes[i]);
      }
      // buy with all cash, or sell every share, or hold
      var step := ApplySignal(Portfolio(cash, shares), diff, prevDiff, closes[i]);
      ReplayRecord(capital, trades, i, step.trade);
      cash, shares := step.after.cash, step.after.shares;
      if step.trade.Some? {
        trades := trades[i := step.trade];
      }
      equityCurve := equityCurve[i := Value(Portfolio(cash, shares), closes[i])];
      i := i + 1;
    }
    r := Ok(Backtest(equityCurve, trades));
  }
}
