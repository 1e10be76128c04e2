/**
 * The bot's evaluation cycle as it runs: one user's ledger is an object
 * whose fields the CRUD helpers of app.py:163-196 update in place, and
 * evaluate_user_strategy (app.py:364-542) is a method that walks the
 * positions with loops.  Each method is proved to leave the ledger exactly
 * as the corresponding function of Ledger or Strategy says.
 */
module Engine {
  import opened Options
  import Indicators
  import Ledger
  import Strategy
  import StrategyProofs
  import Config

  /**
   * app.py:380-399: the closes of both series and the indicators computed
   * from them, with the source's fallbacks for short series.
   */
  method ReadSignals(daily: seq<Indicators.Candle>, weekly: seq<Indicators.Candle>) returns (s: Strategy.Signals)
    ensures s == Strategy.SignalsOf(daily, weekly)
  {
    var closesWeek := Strategy.Closes(weekly);
    var closesDaily := Strategy.Closes(daily);
    var mm200 := if |closesDaily| >= 200 then Indicators.Sma(closesDaily, 200) else Indicators.Sma(closesDaily, 50);
    var mm50 := if |closesDaily| >= 50 then Indicators.Sma(closesDaily, 50) else Indicators.Sma(closesDaily, 10);
    var macdVal: Option<real> := None;
    if |closesWeek| >= 35 {
      var m := Indicators.MacdLine(closesWeek, 12, 26, 9);
      if m.Some? {
        macdVal := Some(m.value.0);
      }
    }
    var rsiWeek: Option<real> := None;
    if |closesWeek| >= 15 {
      rsiWeek := Indicators.Rsi(closesWeek, 14);
    }
    var price: Option<real> := None;
    if |closesDaily| > 0 {
      price := Some(closesDaily[|closesDaily| - 1]);
    } else if |weekly| > 0 {
      price := Some(weekly[|weekly| - 1].close);
    }
    var atrVal: Option<real> := None;
    if |daily| >= 15 {
      atrVal := Indicators.Atr(daily, 14);
    }
    s := Strategy.Signals(price, mm200, mm50, macdVal, rsiWeek, atrVal);
  }

  /** The `users` row of one user, that user's `positions` rows and `history` rows. */
  class UserLedger {
    var balance: real
    var cash: real
    var nextLot: real
    var maxEquity: real
    var lastDeposit: int
    var positions: seq<Ledger.Position>
    var nextId: nat
    var history: seq<Ledger.Entry>
    const rules: Strategy.Rules

    function State(): Ledger.Account
      reads this
    {
      Ledger.Account(balance, cash, nextLot, maxEquity, lastDeposit, positions, nextId, history)
    }

    predicate Valid()
      reads this
    {
      Ledger.Valid(State())
    }

    /** create_user_db for a user that does not exist yet. */
    constructor (initialBalance: real, now: int, rules: Strategy.Rules)
      ensures State() == Ledger.NewAccount(initialBalance, now) && Valid()
      ensures this.rules == rules
    {
      balance := initialBalance;
      cash := initialBalance;
      nextLot := Config.PiramideStart;
      maxEquity := initialBalance;
      lastDeposit := now;
      positions := [];
      nextId := 0;
      history := [];
      this.rules := rules;
    }

    /** update_user_balance_and_lot. */
    method UpdateUserBalanceAndLot(newBalance: real, newCash: real, newLot: Option<real>, newMaxEquity: Option<real>)
      modifies this
      ensures State() == Ledger.UpdateUserBalanceAndLot(old(State()), newBalance, newCash, newLot, newMaxEquity)
    {
      var nl := if newLot.Some? then newLot.value else nextLot;
      var me := if newMaxEquity.Some? then newMaxEquity.value else maxEquity;
      balance, cash, nextLot, maxEquity := newBalance, newCash, nl, me;
    }

    /** save_history. */
    method SaveHistory(action: Ledger.Action, symbol: string, qty: real, price: real, now: int)
      modifies this
      ensures State() == Ledger.SaveHistory(old(State()), action, symbol, qty, price, now)
    {
      history := history + [Ledger.Entry(action, symbol, qty, price, now)];
    }

    /** add_position. */
    method AddPosition(symbol: string, qty: real, avgPrice: real, trailingStop: real, now: int)
      modifies this
      ensures State() == Ledger.AddPosition(old(State()), symbol, qty, avgPrice, trailingStop, now)
    {
      positions := positions + [Ledger.Position(nextId, symbol, qty, avgPrice, now, trailingStop)];
      nextId := nextId + 1;
    }

    /** delete_position. */
    method DeletePosition(id: nat)
      modifies this
      ensures State() == Ledger.DeletePosition(old(State()), id)
    {
      positions := Ledger.Without(positions, id);
    }

    /** update_position_qty_and_stop. */
    method UpdatePositionQtyAndStop(id: nat, newQty: real, newStop: real)
      modifies this
      ensures State() == Ledger.UpdatePositionQtyAndStop(old(State()), id, newQty, newStop)
    {
      if newQty <= 0.0 {
        positions := Ledger.Without(positions, id);
        return;
      }
      positions := Ledger.SetQtyAndStop(positions, id, newQty, newStop);
    }

    /** `equity = cash` plus every position at the current price. */
    method CurrentEquity(price: real) returns (equity: real)
      ensures equity == Strategy.Equity(cash, positions, price)
    {
      equity := cash;
      var i := 0;
      while i < |positions|
        invariant 0 <= i <= |positions|
        invariant equity == Strategy.Equity(cash, positions[..i], price)
      {
        assert positions[..i + 1][..i] == positions[..i];
        equity := equity + positions[i].qty * price;
        i := i + 1;
      }
      assert positions[..i] == positions;
    }

    /** The global-stop liquidation loop over the current positions. */
    method LiquidateAll(price: real, now: int) returns (actions: seq<Strategy.Tag>)
      modifies this
      ensures Strategy.Cycle(State(), actions)
           == Strategy.Liquidate(Strategy.Cycle(old(State()), []), old(positions), price, now)
    {
      var snapshot := positions;
      ghost var start := Strategy.Cycle(State(), []);
      actions := [];
      var j := 0;
      while j < |snapshot|
        invariant 0 <= j <= |snapshot|
        invariant Strategy.Cycle(State(), actions) == Strategy.Liquidate(start, snapshot[..j], price, now)
      {
        Strategy.LiquidateSnoc(start, snapshot, j, price, now);
        actions := LiquidateOne(snapshot[j], price, now, actions);
        j := j + 1;
      }
      assert snapshot[..j] == snapshot;
    }

    /** One liquidation: credit the sale, reset the lot, record it, delete the row. */
    method LiquidateOne(p: Ledger.Position, price: real, now: int, actions: seq<Strategy.Tag>)
      returns (next: seq<Strategy.Tag>)
      modifies this
      ensures Strategy.Cycle(State(), next) == Strategy.LiquidateOne(Strategy.Cycle(old(State()), actions), p, price, now)
    {
      var sellQty := p.qty;
      UpdateUserBalanceAndLot(balance, cash + sellQty * price, Some(Config.PiramideStart), Some(maxEquity));
      SaveHistory(Ledger.StopGlobalSold, p.symbol, sellQty, price, now);
      DeletePosition(p.id);
      next := actions + [Strategy.StopGlobalLiquidated];
    }

    /** The buy branch; `crashed` stands for the ZeroDivisionError raised at price 0. */
    method TryBuy(canBuy: bool, rsiWeek: Option<real>, atr: Option<real>, price: real, symbol: string, now: int)
      returns (crashed: bool, actions: seq<Strategy.Tag>)
      modifies this
      ensures var r := Strategy.BuyStep(Strategy.Cycle(old(State()), []), canBuy, rsiWeek, atr, price, symbol, now, rules);
        && (crashed <==> r.ZeroPrice?)
        && (crashed ==> State() == old(State()))
        && (!crashed ==> Strategy.Cycle(State(), actions) == r.cycle)
    {
      actions := [];
      crashed := false;
      if canBuy {
        var lot := nextLot;
        var available := cash;
        var adjLot := lot;
        if rsiWeek.Some? {
          if rsiWeek.value > 75.0 {
            adjLot := lot * 0.7;
          } else if rsiWeek.value < 40.0 {
            adjLot := lot * 1.2;
          }
        }
        if atr.Some? && atr.value != 0.0 {
          if price == 0.0 {
            crashed := true;
            return;
          }
          var atrRatio := atr.value / price;
          if atrRatio > 0.03 {
            adjLot := adjLot * 0.8;
          }
        }
        assert adjLot == Strategy.VolatilityAdjusted(Strategy.RsiAdjusted(lot, rsiWeek), atr, price);
        adjLot := Strategy.Round2(rules, adjLot);
        if available >= adjLot && adjLot >= 1.0 {
          if price == 0.0 {
            crashed := true;
            return;
          }
          var qty := adjLot / price;
          AddPosition(symbol, qty, price, price * Config.TrailingStopFactor, now);
          var newNext := Strategy.Round2(rules, Strategy.NextPyramidLot(rules, lot));
          UpdateUserBalanceAndLot(balance, available - adjLot, Some(newNext), None);
          SaveHistory(Ledger.Bought, symbol, qty, price, now);
          actions := actions + [Strategy.Buy(adjLot)];
        } else {
          actions := actions + [Strategy.NotEnoughCashOrLotTooSmall];
        }
      }
    }

    /** One iteration of the exit loop, for the snapshot row `p`. */
    method ExitPosition(p: Ledger.Position, price: real, now: int, actions: seq<Strategy.Tag>)
      returns (next: seq<Strategy.Tag>)
      requires p.avgPrice != 0.0
      modifies this
      ensures Strategy.Cycle(State(), next)
           == Strategy.ExitPosition(Strategy.Cycle(old(State()), actions), p, price, now, rules)
    {
      next := SellOrTrail(p, price, now, actions);
      next := TimeStop(p, price, now, next);
    }

    /** The tiered partial sell, or else the trailing-stop update and exit. */
    method SellOrTrail(p: Ledger.Position, price: real, now: int, actions: seq<Strategy.Tag>)
      returns (next: seq<Strategy.Tag>)
      requires p.avgPrice != 0.0
      modifies this
      ensures Strategy.Cycle(State(), next)
           == Strategy.ExitBranch(Strategy.Cycle(old(State()), actions), p, price, now, rules)
    {
      var sellPct := Strategy.SellPct(p, price, rules);
      if sellPct > 0.0 {
        next := PartialSell(p, price, now, actions);
      } else {
        next := Trail(p, price, now, actions);
      }
    }

    /** A profit tier was reached: sell that share of the position. */
    method PartialSell(p: Ledger.Position, price: real, now: int, actions: seq<Strategy.Tag>)
      returns (next: seq<Strategy.Tag>)
      requires p.avgPrice != 0.0 && Strategy.SellPct(p, price, rules) > 0.0
      modifies this
      ensures Strategy.Cycle(State(), next)
           == Strategy.ExitBranch(Strategy.Cycle(old(State()), actions), p, price, now, rules)
    {
      var sellQty := Strategy.SellQty(p, price, rules);
      var newCash := cash + sellQty * price;
      var userBalance := balance;
      UpdatePositionQtyAndStop(p.id, p.qty - sellQty, p.trailingStop);
      UpdateUserBalanceAndLot(userBalance, newCash, None, None);
      SaveHistory(Ledger.PartiallySold, p.symbol, sellQty, price, now);
      next := actions + [Strategy.PartialSold(sellQty)];
    }

    /** No tier reached: raise the trailing stop, and exit if the price is below it. */
    method Trail(p: Ledger.Position, price: real, now: int, actions: seq<Strategy.Tag>)
      returns (next: seq<Strategy.Tag>)
      requires p.avgPrice != 0.0 && Strategy.SellPct(p, price, rules) <= 0.0
      modifies this
      ensures Strategy.Cycle(State(), next)
           == Strategy.ExitBranch(Strategy.Cycle(old(State()), actions), p, price, now, rules)
    {
      var buyPrice := p.avgPrice;
      var newStop := p.trailingStop;
      if price > buyPrice {
        var candidateStop := price * Config.TrailingStopFactor;
        if candidateStop > newStop {
          newStop := candidateStop;
        }
      }
      assert newStop == Strategy.RaisedStop(p.trailingStop, price, buyPrice);
      next := actions;
      if price < newStop {
        UpdateUserBalanceAndLot(balance, cash + p.qty * price, None, None);
        SaveHistory(Ledger.TrailingStopSold, p.symbol, p.qty, price, now);
        DeletePosition(p.id);
        next := next + [Strategy.TrailingStopExecuted];
      } else {
        UpdatePositionQtyAndStop(p.id, p.qty, newStop);
      }
    }

    /** The time stop, on the snapshot's quantity and stop. */
    method TimeStop(p: Ledger.Position, price: real, now: int, actions: seq<Strategy.Tag>)
      returns (next: seq<Strategy.Tag>)
      requires p.avgPrice != 0.0
      modifies this
      ensures Strategy.Cycle(State(), next) == Strategy.TimeStop(Strategy.Cycle(old(State()), actions), p, price, now)
    {
      next := actions;
      var profitPct := Strategy.ProfitPct(price, p.avgPrice);
      var ageDays := now - p.entryTime;
      if ageDays >= Config.StopTimeDays && profitPct < 5.0 {
        var sellQty := p.qty * 0.5;
        UpdateUserBalanceAndLot(balance, cash + sellQty * price, None, None);
        UpdatePositionQtyAndStop(p.id, p.qty - sellQty, p.trailingStop);
        SaveHistory(Ledger.TimeStopPartiallySold, p.symbol, sellQty, price, now);
        next := next + [Strategy.TimeStopPartial];
      }
    }

    /** The exit loop over the positions read after the buy. */
    method ExitAll(price: real, now: int, actions: seq<Strategy.Tag>) returns (next: seq<Strategy.Tag>)
      requires Valid()
      modifies this
      ensures forall p :: p in old(positions) ==> p.avgPrice != 0.0
      ensures Strategy.Cycle(State(), next)
           == Strategy.ExitPass(Strategy.Cycle(old(State()), actions), old(positions), price, now, rules)
    {
      var snapshot := positions;
      next := actions;
      var k := 0;
      while k < |snapshot|
        invariant 0 <= k <= |snapshot|
        invariant forall p :: p in snapshot ==> p.avgPrice != 0.0
        invariant Strategy.Cycle(State(), next)
               == Strategy.ExitPass(Strategy.Cycle(old(State()), actions), snapshot[..k], price, now, rules)
      {
        assert snapshot[k] in snapshot;
        assert snapshot[..k + 1][..k] == snapshot[..k];
        next := ExitPosition(snapshot[k], price, now, next);
        k := k + 1;
      }
      assert snapshot[..k] == snapshot;
    }

    /** The monthly deposit. */
    method MonthlyDeposit(symbol: string, now: int, actions: seq<Strategy.Tag>) returns (next: seq<Strategy.Tag>)
      modifies this
      ensures Strategy.Cycle(State(), next) == Strategy.DepositStep(Strategy.Cycle(old(State()), actions), symbol, now)
    {
      next := actions;
      if now - lastDeposit >= 30 {
        UpdateUserBalanceAndLot(balance, cash + Config.MonthlyDeposit, None, None);
        lastDeposit := now;
        SaveHistory(Ledger.MonthlyDeposited, symbol, 0.0, 0.0, now);
        next := next + [Strategy.MonthlyDepositDone];
      }
    }

    /** evaluate_user_strategy for this user, given the cycle's indicators and the current day. */
    method Evaluate(sig: Strategy.Signals, symbol: string, now: int) returns (out: Strategy.Outcome)
      requires Valid()
      modifies this
      ensures Valid()
      ensures State() == Strategy.Evaluate(old(State()), sig, symbol, now, rules).acct
      ensures out == Strategy.Evaluate(old(State()), sig, symbol, now, rules).outcome
    {
      ghost var s0 := State();
      StrategyProofs.EvaluateKeepsLedger(s0, sig, symbol, now, rules);
      if sig.price.None? {
        return Strategy.NoPriceData;
      }
      var price := sig.price.value;
      var canBuy := Strategy.EntryGate(price, sig.mm200, sig.mm50, sig.macd, sig.rsiWeek);
      var equity := CurrentEquity(price);
      if equity > maxEquity {
        UpdateUserBalanceAndLot(balance, cash, Some(nextLot), Some(equity));
      }
      ghost var s1 := State();
      assert s1 == Strategy.HighWater(s0, equity);
      if maxEquity != 0.0 && equity < maxEquity * (1.0 - Config.StopGlobalPct) {
        var liquidated := LiquidateAll(price, now);
        return Strategy.StopGlobal(liquidated);
      }
      var crashed, actions := TryBuy(canBuy, sig.rsiWeek, sig.atr, price, symbol, now);
      if crashed {
        return Strategy.DivisionByZero;
      }
      Strategy.BuyKeepsValid(Strategy.Cycle(s1, []), canBuy, sig.rsiWeek, sig.atr, price, symbol, now, rules);
      actions := ExitAll(price, now, actions);
      actions := MonthlyDeposit(symbol, now, actions);
      out := Strategy.Done(actions, equity, cash);
    }
  }
}
