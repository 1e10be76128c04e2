/**
 * The per-user strategy step `evaluate_user_strategy` (app.py:364-542) as a
 * pure function from the ledger before the cycle to the ledger after it and
 * the returned result.  The steps keep the source's order: entry gate,
 * equity and high-water mark, global stop (which returns early), pyramided
 * buy, per-position exit pass, monthly deposit.  engine.dfy runs the same
 * step imperatively and is proved equal to `Evaluate`; the lemmas at the end
 * state what the step promises.
 */
module Strategy {
  import opened Options
  import opened Indicators
  import opened Ledger
  import Config

  /** The strings evaluate_user_strategy appends to its `actions` list. */
  datatype Tag =
    | Buy(lot: real)                 // "buy:{adj_lot}"
    | NotEnoughCashOrLotTooSmall
    | PartialSold(qty: real)         // "partial_sell:{sell_qty}"
    | TrailingStopExecuted
    | TimeStopPartial
    | StopGlobalLiquidated
    | MonthlyDepositDone

  /**
   * The helpers the step calls that app.py does not define (`sell_portion`,
   * `next_pyramid_lot`) and Python's `round(x, 2)`, supplied by the caller.
   */
  datatype Rules = Rules(sellPortion: real -> real, nextPyramidLot: real -> real, round2: real -> real)

  /** `sell_portion(profit_pct)`: the fraction of a position to sell. */
  function SellPortion(rules: Rules, profitPct: real): real
  {
    rules.sellPortion(profitPct)
  }

  /** `next_pyramid_lot(lot)`. */
  function NextPyramidLot(rules: Rules, lot: real): real
  {
    rules.nextPyramidLot(lot)
  }

  /** `round(x, 2)`. */
  function Round2(rules: Rules, x: real): real
  {
    rules.round2(x)
  }

  /** The indicator values of one cycle, and the latest price. */
  datatype Signals = Signals(
    price: Option<real>,
    mm200: Option<real>,
    mm50: Option<real>,
    macd: Option<real>,
    rsiWeek: Option<real>,
    atr: Option<real>)

  /** What evaluate_user_strategy returns (the exception is Python's ZeroDivisionError). */
  datatype Outcome =
    | NoPriceData
    | DivisionByZero
    | StopGlobal(actions: seq<Tag>)
    | Done(actions: seq<Tag>, equity: real, cash: real)

  /** A ledger together with the actions taken so far in the cycle. */
  datatype Cycle = Cycle(acct: Account, actions: seq<Tag>)

  datatype Step = Step(acct: Account, outcome: Outcome)

  // ---------------------------------------------------------------------------
  // Step 1: indicators and entry gate (app.py:384-407)
  // ---------------------------------------------------------------------------

  function Closes(cs: seq<Candle>): seq<real>
  {
    seq(|cs|, i requires 0 <= i < |cs| => cs[i].close)
  }

  /**
   * The indicators of app.py:384-399 from the weekly and daily candles: MM200
   * falls back to SMA(50) and MM50 to SMA(10) on a short daily series; MACD
   * needs 35 weekly closes and weekly RSI 15; ATR needs 15 daily candles; the
   * price is the last daily close, else the last weekly close.
   */
  function SignalsOf(daily: seq<Candle>, weekly: seq<Candle>): (s: Signals)
    ensures s.price.None? <==> |daily| == 0 && |weekly| == 0
    ensures |daily| > 0 ==> s.price == Some(daily[|daily| - 1].close)
    ensures |daily| == 0 && |weekly| > 0 ==> s.price == Some(weekly[|weekly| - 1].close)
    ensures s.mm200.Some? <==> |daily| >= 50
    ensures s.mm50.Some? <==> |daily| >= 10
    ensures s.macd.Some? <==> |weekly| >= 35
    ensures s.rsiWeek.Some? <==> |weekly| >= 15
    ensures s.atr.Some? <==> |daily| >= 15
  {
    var closesDaily := Closes(daily);
    var closesWeek := Closes(weekly);
    var macd := if |closesWeek| >= 35 then MacdLineOf(closesWeek, 12, 26, 9) else None;
    Signals(
      price := if |closesDaily| > 0 then Some(closesDaily[|closesDaily| - 1])
               else if |weekly| > 0 then Some(weekly[|weekly| - 1].close) else None,
      mm200 := if |closesDaily| >= 200 then Sma(closesDaily, 200) else Sma(closesDaily, 50),
      mm50 := if |closesDaily| >= 50 then Sma(closesDaily, 50) else Sma(closesDaily, 10),
      macd := if macd.Some? then Some(macd.value.0) else None,
      rsiWeek := if |closesWeek| >= 15 then RsiOf(closesWeek, 14) else None,
      atr := if |daily| >= 15 then AtrOf(daily, 14) else None)
  }

  /**
   * `can_buy`: price above MM200, MM50 above MM200, MACD positive, weekly RSI
   * in [50, 70].  An absent indicator makes its condition false.
   */
  function EntryGate(price: real, mm200: Option<real>, mm50: Option<real>,
                     macd: Option<real>, rsiWeek: Option<real>): (r: bool)
    ensures r ==> mm200.Some? && mm50.Some? && macd.Some? && rsiWeek.Some?
  {
    var priceAboveMm200 := mm200.Some? && price > mm200.value;
    var mm50AboveMm200 := mm50.Some? && mm200.Some? && mm50.value > mm200.value;
    var macdPositive := macd.Some? && macd.value > 0.0;
    var rsiInBand := rsiWeek.Some? && 50.0 <= rsiWeek.value <= 70.0;
    priceAboveMm200 && mm50AboveMm200 && macdPositive && rsiInBand
  }

  // ---------------------------------------------------------------------------
  // Step 2 and 3: equity, high-water mark, global stop (app.py:412-433)
  // ---------------------------------------------------------------------------

  /** `equity = cash; for p in positions: equity += qty * price`. */
  function Equity(cash: real, ps: seq<Position>, price: real): (e: real)
    ensures price >= 0.0 && (forall p :: p in ps ==> p.qty >= 0.0) ==> e >= cash
  {
    if |ps| == 0 then cash
    else
      assert forall p :: p in ps[..|ps| - 1] ==> p in ps;
      Equity(cash, ps[..|ps| - 1], price) + ps[|ps| - 1].qty * price
  }

  /** The high-water mark is overwritten only by a larger equity. */
  function HighWater(a: Account, equity: real): (b: Account)
    ensures b.(maxEquity := a.maxEquity) == a
    ensures b.maxEquity >= a.maxEquity && b.maxEquity >= equity
    ensures b.maxEquity == a.maxEquity || b.maxEquity == equity
  {
    if equity > a.maxEquity then UpdateUserBalanceAndLot(a, a.balance, a.cash, Some(a.nextLot), Some(equity))
    else a
  }

  /** `if user["max_equity"] and equity < max_equity * (1 - STOP_GLOBAL_PCT)`: Python's truthiness is `!= 0`. */
  predicate GlobalStopFires(maxEquity: real, equity: real)
  {
    maxEquity != 0.0 && equity < maxEquity * (1.0 - Config.StopGlobalPct)
  }

  /** One liquidation: credit, reset the lot, record, delete. */
  function LiquidateOne(c: Cycle, p: Position, price: real, now: int): (r: Cycle)
    ensures r.actions == c.actions + [StopGlobalLiquidated]
    ensures r.acct.cash == c.acct.cash + p.qty * price
    ensures r.acct.history == c.acct.history + [Entry(StopGlobalSold, p.symbol, p.qty, price, now)]
    ensures r.acct.nextLot == Config.PiramideStart
    ensures r.acct.balance == c.acct.balance && r.acct.maxEquity == c.acct.maxEquity
    ensures r.acct.lastDeposit == c.acct.lastDeposit && r.acct.nextId == c.acct.nextId
    ensures r.acct.positions == Without(c.acct.positions, p.id)
  {
    var sellQty := p.qty;
    var a := c.acct;
    var a1 := UpdateUserBalanceAndLot(a, a.balance, a.cash + sellQty * price, Some(Config.PiramideStart), Some(a.maxEquity));
    var a2 := SaveHistory(a1, StopGlobalSold, p.symbol, sellQty, price, now);
    var a3 := DeletePosition(a2, p.id);
    Cycle(a3, c.actions + [StopGlobalLiquidated])
  }

  /** The liquidation loop over the snapshot of the positions. */
  function Liquidate(c: Cycle, ps: seq<Position>, price: real, now: int): (r: Cycle)
    ensures |ps| == 0 ==> r == c
    ensures |ps| > 0 ==> r.acct.nextLot == Config.PiramideStart
    ensures r.acct.balance == c.acct.balance && r.acct.maxEquity == c.acct.maxEquity
    ensures r.acct.lastDeposit == c.acct.lastDeposit && r.acct.nextId == c.acct.nextId
  {
    if |ps| == 0 then c else LiquidateOne(Liquidate(c, ps[..|ps| - 1], price, now), ps[|ps| - 1], price, now)
  }

  /** One more snapshot row liquidated is one more `LiquidateOne`. */
  lemma LiquidateSnoc(c: Cycle, ps: seq<Position>, j: nat, price: real, now: int)
    requires j < |ps|
    ensures Liquidate(c, ps[..j + 1], price, now) == LiquidateOne(Liquidate(c, ps[..j], price, now), ps[j], price, now)
  {
    assert ps[..j + 1][..j] == ps[..j];
  }

  // ---------------------------------------------------------------------------
  // Step 4: pyramided buy (app.py:436-470)
  // ---------------------------------------------------------------------------

  /** Weekly RSI above 75 shrinks the lot to 70%, below 40 grows it to 120%. */
  function RsiAdjusted(lot: real, rsiWeek: Option<real>): real
  {
    match rsiWeek
    case None => lot
    case Some(r) => if r > 75.0 then lot * 0.7 else if r < 40.0 then lot * 1.2 else lot
  }

  /** `if atr_val:` holds for a present, non-zero ATR, which is then divided by the price. */
  predicate ReadsAtr(atr: Option<real>)
  {
    atr.Some? && atr.value != 0.0
  }

  /** High volatility (ATR above 3% of the price) shrinks the lot to 80%. */
  function VolatilityAdjusted(lot: real, atr: Option<real>, price: real): real
    requires ReadsAtr(atr) ==> price != 0.0
  {
    if ReadsAtr(atr) && atr.value / price > 0.03 then lot * 0.8 else lot
  }

  /** `adj_lot`, rounded to two decimals. */
  function LotSize(nextLot: real, rsiWeek: Option<real>, atr: Option<real>, price: real, rules: Rules): real
    requires ReadsAtr(atr) ==> price != 0.0
  {
    Round2(rules, VolatilityAdjusted(RsiAdjusted(nextLot, rsiWeek), atr, price))
  }

  datatype BuyResult = ZeroPrice | Proceed(cycle: Cycle)

  /**
   * The buy branch: with the gate open, buy `lot / price` when the cash covers
   * the lot and the lot is at least 1; the order's result is not consulted.
   */
  function BuyStep(c: Cycle, canBuy: bool, rsiWeek: Option<real>, atr: Option<real>,
                   price: real, symbol: string, now: int, rules: Rules): (r: BuyResult)
    ensures r.ZeroPrice? <==>
      (canBuy && price == 0.0 &&
       (ReadsAtr(atr) || (var lot := LotSize(c.acct.nextLot, rsiWeek, atr, price, rules); c.acct.cash >= lot && lot >= 1.0)))
    ensures !canBuy ==> r == Proceed(c)
    ensures r.Proceed? ==>
      var b := r.cycle.acct;
      && b.balance == c.acct.balance && b.maxEquity == c.acct.maxEquity && b.lastDeposit == c.acct.lastDeposit
      && b.cash <= c.acct.cash
      && c.acct.positions <= b.positions && |b.positions| <= |c.acct.positions| + 1
      && c.acct.history <= b.history && |b.history| <= |c.acct.history| + 1
  {
    if !canBuy then Proceed(c)
    else if ReadsAtr(atr) && price == 0.0 then ZeroPrice
    else
      var a := c.acct;
      var lot := LotSize(a.nextLot, rsiWeek, atr, price, rules);
      if a.cash >= lot && lot >= 1.0 then
        if price == 0.0 then ZeroPrice
        else
          var qty := lot / price;
          var a1 := AddPosition(a, symbol, qty, price, price * Config.TrailingStopFactor, now);
          var a2 := UpdateUserBalanceAndLot(a1, a.balance, a.cash - lot,
                                            Some(Round2(rules, NextPyramidLot(rules, a.nextLot))), None);
          var a3 := SaveHistory(a2, Bought, symbol, qty, price, now);
          Proceed(Cycle(a3, c.actions + [Buy(lot)]))
      else Proceed(Cycle(a, c.actions + [NotEnoughCashOrLotTooSmall]))
  }

  // ---------------------------------------------------------------------------
  // Step 5: per-position exit pass (app.py:473-527)
  // ---------------------------------------------------------------------------

  function ProfitPct(price: real, buyPrice: real): real
    requires buyPrice != 0.0
  {
    (price - buyPrice) / buyPrice * 100.0
  }

  /** The trailing stop after the update of app.py:496-500: raised to 90% of the price, never lowered. */
  function RaisedStop(stop: real, price: real, buyPrice: real): (r: real)
    ensures r >= stop
    ensures r == stop || r == price * Config.TrailingStopFactor
    ensures price > buyPrice ==> r >= price * Config.TrailingStopFactor
    ensures price <= buyPrice ==> r == stop
  {
    if price > buyPrice && price * Config.TrailingStopFactor > stop then price * Config.TrailingStopFactor else stop
  }

  /** The fraction to sell at the current profit. */
  function SellPct(p: Position, price: real, rules: Rules): real
    requires p.avgPrice != 0.0
  {
    SellPortion(rules, ProfitPct(price, p.avgPrice))
  }

  /** `sell_qty = qty * sell_pct`. */
  function SellQty(p: Position, price: real, rules: Rules): real
    requires p.avgPrice != 0.0
  {
    p.qty * SellPct(p, price, rules)
  }

  /** 5b/5c: the tiered partial sell, or else the trailing-stop update and exit. */
  function ExitBranch(c: Cycle, p: Position, price: real, now: int, rules: Rules): (r: Cycle)
    requires p.avgPrice != 0.0
    ensures r.acct.balance == c.acct.balance && r.acct.maxEquity == c.acct.maxEquity
    ensures r.acct.lastDeposit == c.acct.lastDeposit && r.acct.nextLot == c.acct.nextLot
    ensures r.acct.nextId == c.acct.nextId
    ensures c.acct.history <= r.acct.history && |r.acct.history| <= |c.acct.history| + 1
  {
    var a := c.acct;
    var qty := p.qty;
    if SellPct(p, price, rules) > 0.0 then
      var sellQty := SellQty(p, price, rules);
      var a1 := UpdatePositionQtyAndStop(a, p.id, qty - sellQty, p.trailingStop);
      var a2 := UpdateUserBalanceAndLot(a1, a.balance, a.cash + sellQty * price, None, None);
      var a3 := SaveHistory(a2, PartiallySold, p.symbol, sellQty, price, now);
      Cycle(a3, c.actions + [PartialSold(sellQty)])
    else
      var newStop := RaisedStop(p.trailingStop, price, p.avgPrice);
      if price < newStop then
        var a1 := UpdateUserBalanceAndLot(a, a.balance, a.cash + qty * price, None, None);
        var a2 := SaveHistory(a1, TrailingStopSold, p.symbol, qty, price, now);
        var a3 := DeletePosition(a2, p.id);
        Cycle(a3, c.actions + [TrailingStopExecuted])
      else
        Cycle(UpdatePositionQtyAndStop(a, p.id, qty, newStop), c.actions)
  }

  /** 5d fires for a position at least 60 days old that is less than 5% up. */
  predicate TimeStopFires(p: Position, price: real, now: int)
    requires p.avgPrice != 0.0
  {
    now - p.entryTime >= Config.StopTimeDays && ProfitPct(price, p.avgPrice) < 5.0
  }

  /**
   * 5d: sell half of the snapshot quantity and write back the snapshot's half
   * and the snapshot's stop, whatever 5b/5c did to the row in this pass.
   */
  function TimeStop(c: Cycle, p: Position, price: real, now: int): (r: Cycle)
    requires p.avgPrice != 0.0
    ensures !TimeStopFires(p, price, now) ==> r == c
    ensures r.acct.balance == c.acct.balance && r.acct.maxEquity == c.acct.maxEquity
    ensures r.acct.lastDeposit == c.acct.lastDeposit && r.acct.nextLot == c.acct.nextLot
    ensures r.acct.nextId == c.acct.nextId
    ensures c.acct.history <= r.acct.history && |r.acct.history| <= |c.acct.history| + 1
    ensures TimeStopFires(p, price, now) ==>
      && r.acct.history == c.acct.history + [Entry(TimeStopPartiallySold, p.symbol, p.qty * 0.5, price, now)]
      && r.actions == c.actions + [TimeStopPartial]
  {
    if TimeStopFires(p, price, now) then
      var sellQty := p.qty * 0.5;
      var a := c.acct;
      var a1 := UpdateUserBalanceAndLot(a, a.balance, a.cash + sellQty * price, None, None);
      var a2 := UpdatePositionQtyAndStop(a1, p.id, p.qty - sellQty, p.trailingStop);
      var a3 := SaveHistory(a2, TimeStopPartiallySold, p.symbol, sellQty, price, now);
      Cycle(a3, c.actions + [TimeStopPartial])
    else c
  }

  /** One iteration of `for p in positions`, with `p` the snapshot row. */
  function ExitPosition(c: Cycle, p: Position, price: real, now: int, rules: Rules): Cycle
    requires p.avgPrice != 0.0
  {
    TimeStop(ExitBranch(c, p, price, now, rules), p, price, now)
  }

  /** The exit loop over the snapshot `ps` read after the buy. */
  function ExitPass(c: Cycle, ps: seq<Position>, price: real, now: int, rules: Rules): (r: Cycle)
    requires forall p :: p in ps ==> p.avgPrice != 0.0
    ensures r.acct.balance == c.acct.balance && r.acct.maxEquity == c.acct.maxEquity
    ensures r.acct.lastDeposit == c.acct.lastDeposit && r.acct.nextLot == c.acct.nextLot
    ensures r.acct.nextId == c.acct.nextId
    ensures |r.acct.history| <= |c.acct.history| + 2 * |ps|
  {
    if |ps| == 0 then c
    else
      assert ps[|ps| - 1] in ps;
      ExitPosition(ExitPass(c, ps[..|ps| - 1], price, now, rules), ps[|ps| - 1], price, now, rules)
  }

  // ---------------------------------------------------------------------------
  // Step 6: monthly deposit (app.py:530-540)
  // ---------------------------------------------------------------------------

  predicate DepositDue(a: Account, now: int)
  {
    now - a.lastDeposit >= 30
  }

  function DepositStep(c: Cycle, symbol: string, now: int): (r: Cycle)
    ensures !DepositDue(c.acct, now) ==> r == c
    ensures r.acct.lastDeposit == (if DepositDue(c.acct, now) then now else c.acct.lastDeposit)
    ensures r.acct.cash >= c.acct.cash
    ensures r.acct.positions == c.acct.positions && r.acct.nextId == c.acct.nextId
    ensures r.acct.balance == c.acct.balance && r.acct.maxEquity == c.acct.maxEquity
    ensures r.acct.nextLot == c.acct.nextLot
  {
    if DepositDue(c.acct, now) then
      var a := c.acct;
      var a1 := UpdateUserBalanceAndLot(a, a.balance, a.cash + Config.MonthlyDeposit, None, None);
      var a2 := a1.(lastDeposit := now);
      var a3 := SaveHistory(a2, MonthlyDeposited, symbol, 0.0, 0.0, now);
      Cycle(a3, c.actions + [MonthlyDepositDone])
    else c
  }

  // ---------------------------------------------------------------------------
  // The whole step
  // ---------------------------------------------------------------------------

  function Evaluate(a: Account, sig: Signals, symbol: string, now: int, rules: Rules): (r: Step)
    requires Valid(a)
    ensures r.outcome.NoPriceData? <==> sig.price.None?
    ensures r.outcome.NoPriceData? ==> r.acct == a
    ensures r.outcome.DivisionByZero? ==> r.acct.(maxEquity := a.maxEquity) == a
    ensures r.outcome.DivisionByZero? <==>
      && sig.price == Some(0.0)
      && var e := Equity(a.cash, a.positions, 0.0);
      && !GlobalStopFires(if e > a.maxEquity then e else a.maxEquity, e)
      && EntryGate(0.0, sig.mm200, sig.mm50, sig.macd, sig.rsiWeek)
      && (ReadsAtr(sig.atr) || (var lot := LotSize(a.nextLot, sig.rsiWeek, sig.atr, 0.0, rules); a.cash >= lot && lot >= 1.0))
    ensures r.outcome.Done? ==> r.outcome.cash == r.acct.cash
    ensures r.outcome.Done? ==> sig.price.Some? && r.outcome.equity == Equity(a.cash, a.positions, sig.price.value)
    ensures r.acct.maxEquity >= a.maxEquity && r.acct.nextId >= a.nextId
  {
    match sig.price
    case None => Step(a, NoPriceData)
    case Some(price) =>
      var canBuy := EntryGate(price, sig.mm200, sig.mm50, sig.macd, sig.rsiWeek);
      var equity := Equity(a.cash, a.positions, price);
      var a1 := HighWater(a, equity);
      if GlobalStopFires(a1.maxEquity, equity) then
        var c := Liquidate(Cycle(a1, []), a1.positions, price, now);
        Step(c.acct, StopGlobal(c.actions))
      else
        match BuyStep(Cycle(a1, []), canBuy, sig.rsiWeek, sig.atr, price, symbol, now, rules)
        case ZeroPrice => Step(a1, DivisionByZero)
        case Proceed(c2) =>
          BuyKeepsValid(Cycle(a1, []), canBuy, sig.rsiWeek, sig.atr, price, symbol, now, rules);
          var c3 := ExitPass(c2, c2.acct.positions, price, now, rules);
          var c4 := DepositStep(c3, symbol, now);
          Step(c4.acct, Done(c4.actions, equity, c4.acct.cash))
  }

  lemma BuyKeepsValid(c: Cycle, canBuy: bool, rsiWeek: Option<real>, atr: Option<real>,
                      price: real, symbol: string, now: int, rules: Rules)
    requires Valid(c.acct)
    ensures var r := BuyStep(c, canBuy, rsiWeek, atr, price, symbol, now, rules);
      r.Proceed? ==> Valid(r.cycle.acct)
  {
    var r := BuyStep(c, canBuy, rsiWeek, atr, price, symbol, now, rules);
    if r.Proceed? && canBuy && price != 0.0 {
      var a := c.acct;
      var lot := LotSize(a.nextLot, rsiWeek, atr, price, rules);
      AddPositionKeepsValid(a, symbol, lot / price, price, price * Config.TrailingStopFactor, now);
    }
  }
}
