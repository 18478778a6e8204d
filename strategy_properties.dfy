/**
 * What the crossover simulator guarantees: when it fails and how, which
 * bars it leaves untouched, what it records at every other bar, that the
 * portfolio it holds is the one the trade list replays to, and that the
 * trades alternate BUY, SELL, BUY, ...
 */
module StrategyProperties {
  import opened Wrappers
  import opened MovingAverage
  import opened Strategy

  /** Bar `j` passes the check that both averages are defined. */
  predicate Active(shortSma: seq<Option<real>>, longSma: seq<Option<real>>, j: int)
    requires 0 <= j < |shortSma| && |longSma| == |shortSma|
  {
    shortSma[j].Some? && longSma[j].Some?
  }

  /** Bar `j` was handled by the loop as the loop body does, starting from the replayed portfolio. */
  ghost predicate BarRecorded(closes: seq<Price>, shortSma: seq<Option<real>>, longSma: seq<Option<real>>,
                              capital: real, equity: seq<real>, trades: seq<Option<Trade>>, j: int)
    requires |shortSma| == |closes| && |longSma| == |closes| && |equity| == |closes| && |trades| == |closes|
    requires 1 <= j < |closes| && Active(shortSma, longSma, j)
  {
    shortSma[j - 1].Some? && longSma[j - 1].Some? &&
    var step := ApplySignal(Replay(capital, trades[..j]), shortSma[j].value - longSma[j].value,
                            shortSma[j - 1].value - longSma[j - 1].value, closes[j]);
    trades[j] == step.trade && equity[j] == Value(step.after, closes[j])
  }

  /** The state of the two lists once the loop has reached bar `i`. */
  ghost predicate LedgerUpTo(closes: seq<Price>, shortSma: seq<Option<real>>, longSma: seq<Option<real>>,
                             longWindow: int, capital: real, i: int, equity: seq<real>, trades: seq<Option<Trade>>)
    requires |shortSma| == |closes| && |longSma| == |closes| && |equity| == |closes| && |trades| == |closes|
    requires 1 <= longWindow
  {
    (forall j :: 0 <= j < |closes| && !(longWindow <= j < i && Active(shortSma, longSma, j)) ==>
       equity[j] == capital && trades[j] == None) &&
    (forall j :: longWindow <= j < i && j < |closes| && Active(shortSma, longSma, j) ==>
       BarRecorded(closes, shortSma, longSma, capital, equity, trades, j))
  }

  /** The loop keeps the ledger, and its running portfolio is the replay of the trades so far. */
  lemma {:induction false} RunKeepsLedger(closes: seq<Price>, shortSma: seq<Option<real>>, longSma: seq<Option<real>>,
                                          longWindow: int, capital: real, i: int, pos: Portfolio,
                                          equity: seq<real>, trades: seq<Option<Trade>>, b: Backtest)
    requires |shortSma| == |closes| && |longSma| == |closes| && |equity| == |closes| && |trades| == |closes|
    requires 1 <= longWindow <= i <= |closes|
    requires LedgerUpTo(closes, shortSma, longSma, longWindow, capital, i, equity, trades)
    requires pos == Replay(capital, trades[..i])
    requires Run(closes, shortSma, longSma, i, pos, equity, trades) == Ok(b)
    ensures |b.equity| == |closes| && |b.trades| == |closes|
    ensures LedgerUpTo(closes, shortSma, longSma, longWindow, capital, |closes|, b.equity, b.trades)
    decreases |closes| - i
  {
    if i < |closes| {
      if !Active(shortSma, longSma, i) {
        assert trades[..i + 1][..i] == trades[..i];
        RunKeepsLedger(closes, shortSma, longSma, longWindow, capital, i + 1, pos, equity, trades, b);
      } else if shortSma[i - 1].Some? && longSma[i - 1].Some? {
        var step := ApplySignal(pos, shortSma[i].value - longSma[i].value,
                                shortSma[i - 1].value - longSma[i - 1].value, closes[i]);
        var equity' := equity[i := Value(step.after, closes[i])];
        var trades' := if step.trade.Some? then trades[i := step.trade] else trades;
        ActiveBarKeepsLedger(closes, shortSma, longSma, longWindow, capital, i, pos, equity, trades);
        RunKeepsLedger(closes, shortSma, longSma, longWindow, capital, i + 1, step.after, equity', trades', b);
      }
    }
  }

  /** One processed bar of the loop keeps the ledger. */
  lemma ActiveBarKeepsLedger(closes: seq<Price>, shortSma: seq<Option<real>>, longSma: seq<Option<real>>,
                             longWindow: int, capital: real, i: int, pos: Portfolio,
                             equity: seq<real>, trades: seq<Option<Trade>>)
    requires |shortSma| == |closes| && |longSma| == |closes| && |equity| == |closes| && |trades| == |closes|
    requires 1 <= longWindow <= i < |closes|
    requires Active(shortSma, longSma, i) && shortSma[i - 1].Some? && longSma[i - 1].Some?
    requires LedgerUpTo(closes, shortSma, longSma, longWindow, capital, i, equity, trades)
    requires pos == Replay(capital, trades[..i])
    ensures var step := ApplySignal(pos, shortSma[i].value - longSma[i].value,
                                    shortSma[i - 1].value - longSma[i - 1].value, closes[i]);
      var trades' := if step.trade.Some? then trades[i := step.trade] else trades;
      LedgerUpTo(closes, shortSma, longSma, longWindow, capital, i + 1,
                 equity[i := Value(step.after, closes[i])], trades') &&
      step.after == Replay(capital, trades'[..i + 1])
  {
    var step := ApplySignal(pos, shortSma[i].value - longSma[i].value,
                            shortSma[i - 1].value - longSma[i - 1].value, closes[i]);
    var equity' := equity[i := Value(step.after, closes[i])];
    var trades' := if step.trade.Some? then trades[i := step.trade] else trades;
    assert trades'[..i] == trades[..i];
    assert trades'[..i + 1][..i] == trades[..i];
    assert trades'[i] == step.trade;
    assert BarRecorded(closes, shortSma, longSma, capital, equity', trades', i);
    forall j | longWindow <= j < i && Active(shortSma, longSma, j)
      ensures BarRecorded(closes, shortSma, longSma, capital, equity', trades', j)
    {
      assert BarRecorded(closes, shortSma, longSma, capital, equity, trades, j);
      assert trades'[..j] == trades[..j];
      assert trades'[j] == trades[j] && equity'[j] == equity[j];
    }
    forall j | 0 <= j < |closes| && !(longWindow <= j < i + 1 && Active(shortSma, longSma, j))
      ensures equity'[j] == capital && trades'[j] == None
    {
      assert j != i;
    }
  }

  /** The simulator's result satisfies the ledger at the end of the loop. */
  lemma SimulateLedger(closes: seq<Price>, shortWindow: int, longWindow: int, capital: real, openPrice: real, b: Backtest)
    requires 0 < shortWindow && 0 < longWindow
    requires Simulate(closes, shortWindow, longWindow, capital, openPrice) == Ok(b)
    ensures |b.equity| == |closes| && |b.trades| == |closes|
    ensures LedgerUpTo(closes, SmaSeries(closes, shortWindow), SmaSeries(closes, longWindow), longWindow, capital,
                 |closes|, b.equity, b.trades)
  {
    var equity0: seq<real> := seq(|closes|, _ => capital);
    var trades0: seq<Option<Trade>> := seq(|closes|, _ => None);
    if longWindow < |closes| {
      ReplayNoTrades(capital, trades0[..longWindow]);
      RunKeepsLedger(closes, SmaSeries(closes, shortWindow), SmaSeries(closes, longWindow), longWindow, capital,
                     longWindow, Portfolio(capital, 0.0), equity0, trades0, b);
    }
  }

  /** An average series that is undefined exactly on the first `window - 1` bars. */
  ghost predicate DefinedFrom(sma: seq<Option<real>>, window: int)
  {
    forall k :: 0 <= k < |sma| ==> (sma[k].Some? <==> k >= window - 1)
  }

  /** The loop from bar `i` fails exactly when a short window longer than the long one fills up at or after `i`. */
  lemma {:induction false} RunOutcome(closes: seq<Price>, shortSma: seq<Option<real>>, longSma: seq<Option<real>>,
                                      shortWindow: int, longWindow: int, i: int, pos: Portfolio,
                                      equity: seq<real>, trades: seq<Option<Trade>>)
    requires |shortSma| == |closes| && |longSma| == |closes|
    requires |equity| == |closes| && |trades| == |closes|
    requires DefinedFrom(shortSma, shortWindow) && DefinedFrom(longSma, longWindow)
    requires 0 < shortWindow && 0 < longWindow <= i
    ensures Run(closes, shortSma, longSma, i, pos, equity, trades).Err?
        <==> longWindow < shortWindow && i < shortWindow <= |closes|
    decreases |closes| - i
  {
    if i < |closes| {
      if shortSma[i].None? || longSma[i].None? {
        RunOutcome(closes, shortSma, longSma, shortWindow, longWindow, i + 1, pos, equity, trades);
      } else if shortSma[i - 1].Some? && longSma[i - 1].Some? {
        var step := ApplySignal(pos, shortSma[i].value - longSma[i].value,
                                shortSma[i - 1].value - longSma[i - 1].value, closes[i]);
        RunOutcome(closes, shortSma, longSma, shortWindow, longWindow, i + 1, step.after,
                   equity[i := Value(step.after, closes[i])],
                   if step.trade.Some? then trades[i := step.trade] else trades);
      }
    }
  }

  /**
   * The simulator raises the capital error exactly when the capital is below
   * the opening price, raises the undefined-average error exactly when the
   * capital suffices but the short window is longer than the long one and no
   * longer than the price list, and otherwise returns a result.
   */
  lemma SimulateOutcome(closes: seq<Price>, shortWindow: int, longWindow: int, capital: real, openPrice: real)
    requires 0 < shortWindow && 0 < longWindow
    ensures var r := Simulate(closes, shortWindow, longWindow, capital, openPrice);
      (r == Err(CapitalTooLow) <==> capital < openPrice) &&
      (r == Err(UndefinedAverage) <==> openPrice <= capital && longWindow < shortWindow <= |closes|) &&
      (r.Ok? <==> openPrice <= capital && (shortWindow <= longWindow || |closes| < shortWindow))
  {
    if openPrice <= capital {
      RunOutcome(closes, SmaSeries(closes, shortWindow), SmaSeries(closes, longWindow), shortWindow, longWindow,
                 longWindow, Portfolio(capital, 0.0), seq(|closes|, _ => capital), seq(|closes|, _ => None));
    }
  }

  /** Difference of the short and the long moving average at bar `j`. */
  function CrossDiff(closes: seq<real>, shortWindow: int, longWindow: int, j: int): real
    requires 0 < shortWindow <= j + 1 && 0 < longWindow <= j + 1 && j < |closes|
  {
    Mean(closes[j + 1 - shortWindow..j + 1]) - Mean(closes[j + 1 - longWindow..j + 1])
  }

  /**
   * What the simulator did at a bar it processed: starting from the portfolio
   * the earlier trades replay to, it bought exactly on an upward crossover
   * while flat, sold exactly on a downward crossover while long, otherwise
   * recorded nothing, and wrote the value of the portfolio at the closing
   * price, which the trade did not change.
   */
  ghost predicate ExplainedBar(closes: seq<Price>, shortWindow: int, longWindow: int, capital: real, b: Backtest, j: int)
  {
    0 < shortWindow <= j && 0 < longWindow <= j < |closes| &&
    |b.equity| == |closes| && |b.trades| == |closes| &&
    var held := Replay(capital, b.trades[..j]);
    var diff := CrossDiff(closes, shortWindow, longWindow, j);
    var prevDiff := CrossDiff(closes, shortWindow, longWindow, j - 1);
    (b.trades[j] == Some(Trade(Buy, closes[j])) <==> held.shares == 0.0 && diff > 0.0 && prevDiff <= 0.0) &&
    (b.trades[j] == Some(Trade(Sell, closes[j])) <==> held.shares > 0.0 && diff < 0.0 && prevDiff >= 0.0) &&
    (b.trades[j] == None || b.trades[j] == Some(Trade(Buy, closes[j])) || b.trades[j] == Some(Trade(Sell, closes[j]))) &&
    b.equity[j] == Value(held, closes[j]) &&
    b.equity[j] == Value(Replay(capital, b.trades[..j + 1]), closes[j])
  }

  /** Every replayed portfolio holds only cash or only shares. */
  lemma {:induction false} ReplayFlatOrLong(capital: real, log: seq<Option<Trade>>)
    ensures Replay(capital, log).cash == 0.0 || Replay(capital, log).shares == 0.0
    decreases |log|
  {
    if log != [] {
      ReplayFlatOrLong(capital, log[..|log| - 1]);
    }
  }

  /**
   * The equity curve and the trade list: one entry per bar; bars before the
   * long window, and bars whose short average is still undefined, keep the
   * capital and no trade; every other bar is explained by ExplainedBar.
   */
  lemma SimulateRecordsBars(closes: seq<Price>, shortWindow: int, longWindow: int, capital: real, openPrice: real, b: Backtest)
    requires 0 < shortWindow && 0 < longWindow
    requires Simulate(closes, shortWindow, longWindow, capital, openPrice) == Ok(b)
    ensures
      |b.equity| == |closes| && |b.trades| == |closes| &&
      (forall j :: 0 <= j < |closes| && (j < longWindow || j + 1 < shortWindow) ==>
         b.equity[j] == capital && b.trades[j] == None) &&
      (forall j :: longWindow <= j < |closes| && shortWindow <= j + 1 ==>
         ExplainedBar(closes, shortWindow, longWindow, capital, b, j))
  {
    SimulateLedger(closes, shortWindow, longWindow, capital, openPrice, b);
    forall j | longWindow <= j < |closes| && shortWindow <= j + 1
      ensures ExplainedBar(closes, shortWindow, longWindow, capital, b, j)
    {
      ProcessedBar(closes, shortWindow, longWindow, capital, openPrice, b, j);
    }
    forall j | 0 <= j < |closes| && (j < longWindow || j + 1 < shortWindow)
      ensures b.equity[j] == capital && b.trades[j] == None
    {
      assert !Active(SmaSeries(closes, shortWindow), SmaSeries(closes, longWindow), j) || j < longWindow;
    }
  }

  /** One bar of SimulateRecordsBars that the loop processed. */
  lemma ProcessedBar(closes: seq<Price>, shortWindow: int, longWindow: int, capital: real, openPrice: real, b: Backtest, j: int)
    requires 0 < shortWindow && 0 < longWindow
    requires Simulate(closes, shortWindow, longWindow, capital, openPrice) == Ok(b)
    requires longWindow <= j < |closes| && shortWindow <= j + 1
    ensures
      |b.equity| == |closes| && |b.trades| == |closes| &&
      ExplainedBar(closes, shortWindow, longWindow, capital, b, j)
  {
    var shortSma, longSma := SmaSeries(closes, shortWindow), SmaSeries(closes, longWindow);
    SimulateLedger(closes, shortWindow, longWindow, capital, openPrice, b);
    SimulateOutcome(closes, shortWindow, longWindow, capital, openPrice);
    assert Active(shortSma, longSma, j);
    BarExplained(closes, shortWindow, longWindow, capital, b, j);
  }

  /** A bar the loop handled, restated in terms of the prices and the replayed portfolio. */
  lemma BarExplained(closes: seq<Price>, shortWindow: int, longWindow: int, capital: real, b: Backtest, j: int)
    requires 0 < shortWindow <= j && 0 < longWindow <= j < |closes|
    requires |b.equity| == |closes| && |b.trades| == |closes|
    requires Active(SmaSeries(closes, shortWindow), SmaSeries(closes, longWindow), j)
    requires BarRecorded(closes, SmaSeries(closes, shortWindow), SmaSeries(closes, longWindow), capital, b.equity, b.trades, j)
    ensures ExplainedBar(closes, shortWindow, longWindow, capital, b, j)
  {
    var held := Replay(capital, b.trades[..j]);
    ReplayFlatOrLong(capital, b.trades[..j]);
    assert b.trades[..j + 1][..j] == b.trades[..j];
    var step := ApplySignal(held, CrossDiff(closes, shortWindow, longWindow, j),
                            CrossDiff(closes, shortWindow, longWindow, j - 1), closes[j]);
    assert b.trades[j] == step.trade && b.equity[j] == Value(step.after, closes[j]);
    assert Replay(capital, b.trades[..j + 1]) == step.after;
  }

  /** With non-negative capital, any trade list replays to a sound portfolio. */
  lemma {:induction false} ReplaySound(capital: real, log: seq<Option<Trade>>)
    requires 0.0 <= capital
    ensures Sound(Replay(capital, log))
    decreases |log|
  {
    if log != [] {
      ReplaySound(capital, log[..|log| - 1]);
    }
  }

  /**
   * The simulator's cash and shares: at every bar (the portfolio held on
   * reaching bar `j` is the replay of the trades before `j`) cash and shares
   * are non-negative and at least one of them is zero.
   */
  lemma SimulatePortfolioSound(closes: seq<Price>, shortWindow: int, longWindow: int, capital: real, openPrice: real, b: Backtest)
    requires 0 < shortWindow && 0 < longWindow && 0.0 <= capital
    requires Simulate(closes, shortWindow, longWindow, capital, openPrice) == Ok(b)
    ensures
      |b.trades| == |closes| &&
      forall j :: 0 <= j <= |closes| ==> Sound(Replay(capital, b.trades[..j]))
  {
    SimulateLedger(closes, shortWindow, longWindow, capital, openPrice, b);
    forall j | 0 <= j <= |closes|
      ensures Sound(Replay(capital, b.trades[..j]))
    {
      ReplaySound(capital, b.trades[..j]);
    }
  }

  /** Every BUY in the list is placed while flat and every SELL while long. */
  ghost predicate Guarded(capital: real, log: seq<Option<Trade>>)
  {
    forall k :: 0 <= k < |log| && log[k].Some? ==>
      if log[k].value.side == Buy then Replay(capital, log[..k]).shares == 0.0
      else Replay(capital, log[..k]).shares > 0.0
  }

  /**
   * A guarded trade list, started with positive capital, alternates BUY,
   * SELL, BUY, ...; after an even number of trades the portfolio is all
   * (positive) cash, after an odd number all (positive) shares.
   */
  lemma {:induction false} GuardedPrefixAlternates(capital: real, log: seq<Option<Trade>>, n: nat)
    requires 0.0 < capital && n <= |log| && Guarded(capital, log)
    ensures Alternates(Filled(log[..n]))
    ensures Parity(Replay(capital, log[..n]), |Filled(log[..n])|)
    decreases n
  {
    if n == 0 {
      assert log[..0] == [];
    } else {
      GuardedPrefixAlternates(capital, log, n - 1);
      assert log[..n] == log[..n - 1] + [log[n - 1]];
      assert log[n - 1].Some? ==>
        if log[n - 1].value.side == Buy then Replay(capital, log[..n - 1]).shares == 0.0
        else Replay(capital, log[..n - 1]).shares > 0.0;
      AlternationStep(capital, log[..n - 1], log[n - 1]);
    }
  }

  /** All positive cash after an even number of trades, all positive shares after an odd number. */
  ghost predicate Parity(p: Portfolio, count: nat)
  {
    if count % 2 == 0 then p.cash > 0.0 && p.shares == 0.0 else p.cash == 0.0 && p.shares > 0.0
  }

  /**
   * Appending one guarded entry to an alternating trade list. Dafny proves it
   * from the definitions; it is stated on its own so that the induction in
   * GuardedPrefixAlternates stays small and stable.
   */
  lemma AlternationStep(capital: real, prefix: seq<Option<Trade>>, e: Option<Trade>)
    requires Alternates(Filled(prefix)) && Parity(Replay(capital, prefix), |Filled(prefix)|)
    requires e.Some? ==>
      if e.value.side == Buy then Replay(capital, prefix).shares == 0.0 else Replay(capital, prefix).shares > 0.0
    ensures Alternates(Filled(prefix + [e]))
    ensures Parity(Replay(capital, prefix + [e]), |Filled(prefix + [e])|)
  {
  }

  /**
   * The actual trades of a result started with positive capital go BUY,
   * SELL, BUY, ... starting with a BUY, each at the closing price of its bar;
   * the final portfolio is all cash after an even number of trades and all
   * shares after an odd number.
   */
  lemma SimulateTradesAlternate(closes: seq<Price>, shortWindow: int, longWindow: int, capital: real, openPrice: real, b: Backtest)
    requires 0 < shortWindow && 0 < longWindow && 0.0 < capital
    requires Simulate(closes, shortWindow, longWindow, capital, openPrice) == Ok(b)
    ensures
      |b.trades| == |closes| &&
      Alternates(Filled(b.trades)) &&
      (forall j :: 0 <= j < |closes| && b.trades[j].Some? ==> b.trades[j].value.price == closes[j]) &&
      Parity(Replay(capital, b.trades), |Filled(b.trades)|)
  {
    SimulateRecordsBars(closes, shortWindow, longWindow, capital, openPrice, b);
    assert Guarded(capital, b.trades) by {
      forall k | 0 <= k < |b.trades| && b.trades[k].Some?
        ensures if b.trades[k].value.side == Buy then Replay(capital, b.trades[..k]).shares == 0.0
                else Replay(capital, b.trades[..k]).shares > 0.0
      {
        assert longWindow <= k && shortWindow <= k + 1;
        ProcessedBar(closes, shortWindow, longWindow, capital, openPrice, b, k);
      }
    }
    forall j | 0 <= j < |closes| && b.trades[j].Some?
      ensures b.trades[j].value.price == closes[j]
    {
      assert longWindow <= j && shortWindow <= j + 1;
      ProcessedBar(closes, shortWindow, longWindow, capital, openPrice, b, j);
    }
    GuardedPrefixAlternates(capital, b.trades, |b.trades|);
    assert b.trades[..|b.trades|] == b.trades;
  }

  /**
   * Flat prices never cross: with every close equal, enough capital and
   * windows that are ordered or whose short one never fills (the cases in
   * which SimulateOutcome gives a result), no trade is recorded and the
   * equity curve is the capital throughout.
   */
  lemma FlatPricesNeverTrade(closes: seq<Price>, c: Price, shortWindow: int, longWindow: int, capital: real, openPrice: real)
    requires 0 < shortWindow && 0 < longWindow && openPrice <= capital
    requires shortWindow <= longWindow || |closes| < shortWindow
    requires forall j :: 0 <= j < |closes| ==> closes[j] == c
    ensures Simulate(closes, shortWindow, longWindow, capital, openPrice)
         == Ok(Backtest(seq(|closes|, _ => capital), seq(|closes|, _ => None)))
  {
    SimulateOutcome(closes, shortWindow, longWindow, capital, openPrice);
    var b := Simulate(closes, shortWindow, longWindow, capital, openPrice).value;
    SimulateRecordsBars(closes, shortWindow, longWindow, capital, openPrice, b);
    forall j | longWindow <= j < |closes| && shortWindow <= j + 1
      ensures b.trades[j] == None
    {
      assert ExplainedBar(closes, shortWindow, longWindow, capital, b, j);
      MeanConstant(closes[j + 1 - shortWindow..j + 1], c);
      MeanConstant(closes[j + 1 - longWindow..j + 1], c);
      assert CrossDiff(closes, shortWindow, longWindow, j) == 0.0;
    }
    forall j | 0 <= j < |closes|
      ensures b.equity[j] == capital
    {
      if longWindow <= j && shortWindow <= j + 1 {
        assert ExplainedBar(closes, shortWindow, longWindow, capital, b, j);
        ReplayNoTrades(capital, b.trades[..j]);
      }
    }
    assert b.trades == seq(|closes|, _ => None);
    assert b.equity == seq(|closes|, _ => capital);
  }

  /**
   * An open position at the end is not liquidated: the last bar's equity is
   * the mark-to-market value of what the trade list replays to, and after an
   * odd number of trades the last trade is a BUY and that value is the
   * shares held times the last close.
   */
  lemma OpenPositionMarkedToMarket(closes: seq<Price>, shortWindow: int, longWindow: int, capital: real, openPrice: real, b: Backtest)
    requires 0 < shortWindow && 0 < longWindow && 0 < |closes| && 0.0 < capital
    requires Simulate(closes, shortWindow, longWindow, capital, openPrice) == Ok(b)
    ensures |b.equity| == |closes| && |b.trades| == |closes|
    ensures b.equity[|closes| - 1] == Value(Replay(capital, b.trades), closes[|closes| - 1])
    ensures |Filled(b.trades)| % 2 == 1 ==>
      Filled(b.trades)[|Filled(b.trades)| - 1].side == Buy &&
      Replay(capital, b.trades).shares > 0.0 &&
      b.equity[|closes| - 1] == Replay(capital, b.trades).shares * closes[|closes| - 1]
  {
    LastBarEquity(closes, shortWindow, longWindow, capital, openPrice, b);
    SimulateTradesAlternate(closes, shortWindow, longWindow, capital, openPrice, b);
    if |Filled(b.trades)| % 2 == 1 {
      OddFillsEndLong(capital, b.trades, closes[|closes| - 1]);
    }
  }

  /**
   * After an odd number of alternating fills the last one is a BUY and the
   * portfolio is all shares. Dafny proves it from the definitions; it is
   * stated on its own so that OpenPositionMarkedToMarket stays within its
   * resource budget.
   */
  lemma OddFillsEndLong(capital: real, log: seq<Option<Trade>>, price: Price)
    requires Alternates(Filled(log)) && Parity(Replay(capital, log), |Filled(log)|)
    requires |Filled(log)| % 2 == 1
    ensures Filled(log)[|Filled(log)| - 1].side == Buy
    ensures Replay(capital, log).shares > 0.0
    ensures Value(Replay(capital, log), price) == Replay(capital, log).shares * price
  {
  }

  /** The last bar's equity is the value of the portfolio the whole trade list replays to. */
  lemma LastBarEquity(closes: seq<Price>, shortWindow: int, longWindow: int, capital: real, openPrice: real, b: Backtest)
    requires 0 < shortWindow && 0 < longWindow && 0 < |closes|
    requires Simulate(closes, shortWindow, longWindow, capital, openPrice) == Ok(b)
    ensures |b.equity| == |closes| && |b.trades| == |closes|
    ensures b.equity[|closes| - 1] == Value(Replay(capital, b.trades), closes[|closes| - 1])
  {
    var n := |closes|;
    if longWindow < n && shortWindow <= n {
      ProcessedBar(closes, shortWindow, longWindow, capital, openPrice, b, n - 1);
      assert b.trades[..n] == b.trades;
    } else {
      SimulateRecordsBars(closes, shortWindow, longWindow, capital, openPrice, b);
      assert b.equity[n - 1] == capital;
      ReplayNoTrades(capital, b.trades);
    }
  }

}
