/**
 * What evaluate_user_strategy (app.py:364-542) promises, proved about the
 * pure step `Strategy.Evaluate`: the entry gate, the high-water mark, the
 * global stop, the pyramided buy, the exit pass with its trailing and time
 * stops, and the ledger invariants one cycle keeps.
 */
module StrategyProofs {
  import opened Options
  import opened Indicators
  import opened Ledger
  import opened Strategy
  import Config

  // ---------------------------------------------------------------------------
  // Vocabulary of the statements
  // ---------------------------------------------------------------------------

  /** The high-water mark after seeing `equity`. */
  function Peak(maxEquity: real, equity: real): real
  {
    if equity > maxEquity then equity else maxEquity
  }

  /** `h1` is `h0` with rows appended, each stamped `now`. */
  predicate Extends(h0: seq<Entry>, h1: seq<Entry>, now: int)
  {
    h0 <= h1 && forall k :: |h0| <= k < |h1| ==> h1[k].time == now
  }

  /** No row of `cur` has a trailing stop below that of the `before` row with its id. */
  predicate NotLowered(before: seq<Position>, cur: seq<Position>)
  {
    forall q, p :: q in cur && p in before && q.id == p.id ==> q.trailingStop >= p.trailingStop
  }

  /** Cash is not negative and every stored position holds a positive quantity. */
  predicate Solvent(a: Account)
  {
    a.cash >= 0.0 && forall p :: p in a.positions ==> p.qty > 0.0
  }

  /** The stop_global_sell rows written for `ps`. */
  function StopEntries(ps: seq<Position>, price: real, now: int): seq<Entry>
  {
    seq(|ps|, i requires 0 <= i < |ps| => Entry(StopGlobalSold, ps[i].symbol, ps[i].qty, price, now))
  }

  function Repeat(t: Tag, n: nat): seq<Tag>
  {
    seq(n, _ => t)
  }

  lemma RepeatSnoc(t: Tag, n: nat)
    ensures Repeat(t, n) + [t] == Repeat(t, n + 1)
  {
  }

  lemma StopEntriesSnoc(ps: seq<Position>, price: real, now: int)
    requires |ps| > 0
    ensures StopEntries(ps[..|ps| - 1], price, now) + [Entry(StopGlobalSold, ps[|ps| - 1].symbol, ps[|ps| - 1].qty, price, now)]
         == StopEntries(ps, price, now)
  {
  }

  // ---------------------------------------------------------------------------
  // Small facts
  // ---------------------------------------------------------------------------

  lemma ExtendsTrans(h0: seq<Entry>, h1: seq<Entry>, h2: seq<Entry>, now: int)
    requires Extends(h0, h1, now) && Extends(h1, h2, now)
    ensures Extends(h0, h2, now)
  {
    assert h0 <= h2 by {
      assert h2[..|h1|] == h1;
      assert h2[..|h0|] == h1[..|h0|];
    }
    forall k | |h0| <= k < |h2| ensures h2[k].time == now {
      if k < |h1| {
        assert h2[k] == h1[k];
      }
    }
  }

  lemma IdsSnoc(ps: seq<Position>)
    requires |ps| > 0
    ensures Ids(ps) == Ids(ps[..|ps| - 1]) + {ps[|ps| - 1].id}
  {
    assert ps == ps[..|ps| - 1] + [ps[|ps| - 1]];
  }

  lemma SameIdSameRow(ps: seq<Position>, x: Position, y: Position)
    requires DistinctIds(ps) && x in ps && y in ps && x.id == y.id
    ensures x == y
  {
    var i :| 0 <= i < |ps| && ps[i] == x;
    var j :| 0 <= j < |ps| && ps[j] == y;
    assert ps[i].id == ps[j].id;
  }

  lemma FirstIsMember(s: seq<Position>)
    ensures |s| > 0 ==> s[0] in s
  {
  }

  lemma DivPositive(x: real, y: real)
    requires x > 0.0 && y > 0.0
    ensures x / y > 0.0
  {
    assert x / y * y == x;
  }

  lemma MulPositive(x: real, y: real)
    requires x > 0.0 && y > 0.0
    ensures x * y > 0.0
  {
  }

  lemma NotLoweredRefl(ps: seq<Position>)
    requires DistinctIds(ps)
    ensures NotLowered(ps, ps)
  {
    forall q, p | q in ps && p in ps && q.id == p.id ensures q.trailingStop >= p.trailingStop {
      SameIdSameRow(ps, q, p);
    }
  }

  /** The rows one update can leave: untouched rows, or that id's row with the new values. */
  lemma UpdateRows(a: Account, id: nat, newQty: real, newStop: real)
    ensures var b := UpdatePositionQtyAndStop(a, id, newQty, newStop);
      && b.(positions := a.positions) == a
      && forall q :: q in b.positions ==>
           (q.id != id && q in a.positions) ||
           (q.id == id && newQty > 0.0 && q.qty == newQty && q.trailingStop == newStop)
  {
    UpdatePositionSpec(a, id, newQty, newStop);
    var b := UpdatePositionQtyAndStop(a, id, newQty, newStop);
    forall q | q in b.positions && q.id == id ensures newQty > 0.0 {
      assert q.id in Ids(b.positions);
    }
  }

  // ---------------------------------------------------------------------------
  // Step 1: the entry gate
  // ---------------------------------------------------------------------------

  /**
   * With fewer than 200 daily closes MM200 falls back to SMA(50), which then
   * equals (or, below 50 closes, is absent like) MM50, so `mm50 > mm200`
   * fails; without 35 weekly closes there is no MACD.  The gate therefore
   * stays shut on a short daily or weekly history.
   */
  lemma GateShutOnShortHistory(daily: seq<Candle>, weekly: seq<Candle>)
    requires |daily| < 200 || |weekly| < 35
    ensures var s := SignalsOf(daily, weekly);
      s.price.Some? ==> !EntryGate(s.price.value, s.mm200, s.mm50, s.macd, s.rsiWeek)
  {
    var cd := Closes(daily);
    var s := SignalsOf(daily, weekly);
    if |daily| < 200 {
      if |cd| < 50 {
        assert s.mm200 == Sma(cd, 50);
      } else {
        assert s.mm200 == s.mm50;
      }
    }
  }

  /**
   * Inside the buy branch the weekly RSI is in [50, 70], so neither the
   * `> 75` nor the `< 40` lot adjustment can apply.
   */
  lemma RsiAdjustmentIsDead(price: real, mm200: Option<real>, mm50: Option<real>,
                            macd: Option<real>, rsiWeek: Option<real>, lot: real)
    requires EntryGate(price, mm200, mm50, macd, rsiWeek)
    ensures RsiAdjusted(lot, rsiWeek) == lot
  {
  }

  // ---------------------------------------------------------------------------
  // Frames: what the buy, the exit pass and the deposit leave alone
  // ---------------------------------------------------------------------------

  lemma BuyFrame(c: Cycle, canBuy: bool, rsiWeek: Option<real>, atr: Option<real>,
                 price: real, symbol: string, now: int, rules: Rules)
    ensures var r := BuyStep(c, canBuy, rsiWeek, atr, price, symbol, now, rules);
      r.Proceed? ==>
        var b := r.cycle.acct;
        && b.balance == c.acct.balance && b.maxEquity == c.acct.maxEquity
        && b.lastDeposit == c.acct.lastDeposit
        && Extends(c.acct.history, b.history, now)
        && c.acct.positions <= b.positions
  {
  }

  lemma ExitPositionFrame(c: Cycle, p: Position, price: real, now: int, rules: Rules)
    requires p.avgPrice != 0.0
    ensures var r := ExitPosition(c, p, price, now, rules).acct;
      && r.balance == c.acct.balance && r.maxEquity == c.acct.maxEquity
      && r.lastDeposit == c.acct.lastDeposit && r.nextLot == c.acct.nextLot
      && r.nextId == c.acct.nextId
      && Extends(c.acct.history, r.history, now)
  {
    var m := ExitBranch(c, p, price, now, rules);
    assert Extends(c.acct.history, m.acct.history, now);
    ExtendsTrans(c.acct.history, m.acct.history, TimeStop(m, p, price, now).acct.history, now);
  }

  /** The exit pass touches neither balance, high-water mark, lot, deposit date nor id counter. */
  lemma {:induction false} ExitPassFrame(c: Cycle, ps: seq<Position>, price: real, now: int, rules: Rules)
    requires forall p :: p in ps ==> p.avgPrice != 0.0
    ensures var r := ExitPass(c, ps, price, now, rules).acct;
      && r.balance == c.acct.balance && r.maxEquity == c.acct.maxEquity
      && r.lastDeposit == c.acct.lastDeposit && r.nextLot == c.acct.nextLot
      && r.nextId == c.acct.nextId
      && Extends(c.acct.history, r.history, now)
  {
    if |ps| > 0 {
      var n := |ps|;
      assert ps[n - 1] in ps;
      var m := ExitPass(c, ps[..n - 1], price, now, rules);
      ExitPassFrame(c, ps[..n - 1], price, now, rules);
      ExitPositionFrame(m, ps[n - 1], price, now, rules);
      ExtendsTrans(c.acct.history, m.acct.history, ExitPass(c, ps, price, now, rules).acct.history, now);
    } else {
      assert Extends(c.acct.history, c.acct.history, now);
    }
  }

  lemma DepositFrame(c: Cycle, symbol: string, now: int)
    ensures var r := DepositStep(c, symbol, now).acct;
      && r.balance == c.acct.balance && r.maxEquity == c.acct.maxEquity
      && r.nextLot == c.acct.nextLot && r.positions == c.acct.positions && r.nextId == c.acct.nextId
      && Extends(c.acct.history, r.history, now)
  {
  }

  // ---------------------------------------------------------------------------
  // Step 2: the high-water mark
  // ---------------------------------------------------------------------------

  /**
   * The stored high-water mark becomes the larger of itself and this cycle's
   * equity, and no later step of the cycle changes it: it never decreases.
   */
  lemma HighWaterMark(a: Account, sig: Signals, symbol: string, now: int, rules: Rules)
    requires Valid(a)
    ensures var r := Evaluate(a, sig, symbol, now, rules).acct;
      && r.maxEquity >= a.maxEquity
      && r.maxEquity == (if sig.price.Some? then Peak(a.maxEquity, Equity(a.cash, a.positions, sig.price.value)) else a.maxEquity)
  {
    if sig.price.Some? {
      var price := sig.price.value;
      var e := Equity(a.cash, a.positions, price);
      var a1 := HighWater(a, e);
      if GlobalStopFires(a1.maxEquity, e) {
        LiquidateSpec(Cycle(a1, []), a1.positions, price, now);
      } else {
        var canBuy := EntryGate(price, sig.mm200, sig.mm50, sig.macd, sig.rsiWeek);
        var br := BuyStep(Cycle(a1, []), canBuy, sig.rsiWeek, sig.atr, price, symbol, now, rules);
        BuyFrame(Cycle(a1, []), canBuy, sig.rsiWeek, sig.atr, price, symbol, now, rules);
        if br.Proceed? {
          BuyKeepsValid(Cycle(a1, []), canBuy, sig.rsiWeek, sig.atr, price, symbol, now, rules);
          var c2 := br.cycle;
          ExitPassFrame(c2, c2.acct.positions, price, now, rules);
          DepositFrame(ExitPass(c2, c2.acct.positions, price, now, rules), symbol, now);
        }
      }
    }
  }

  // ---------------------------------------------------------------------------
  // Step 3: the global stop
  // ---------------------------------------------------------------------------

  /** The liquidation loop sells every snapshot row at `price`, in order. */
  lemma LiquidateSpec(c: Cycle, ps: seq<Position>, price: real, now: int)
    ensures var r := Liquidate(c, ps, price, now);
      && r.actions == c.actions + Repeat(StopGlobalLiquidated, |ps|)
      && r.acct.cash == Equity(c.acct.cash, ps, price)
      && r.acct.history == c.acct.history + StopEntries(ps, price, now)
      && r.acct.nextLot == (if |ps| == 0 then c.acct.nextLot else Config.PiramideStart)
      && r.acct.balance == c.acct.balance && r.acct.maxEquity == c.acct.maxEquity
      && r.acct.lastDeposit == c.acct.lastDeposit && r.acct.nextId == c.acct.nextId
  {
    LiquidateCash(c, ps, price, now);
    LiquidateLog(c, ps, price, now);
  }

  /** Liquidation credits each snapshot row's quantity at `price`, so the cash ends as the equity. */
  lemma {:induction false} LiquidateCash(c: Cycle, ps: seq<Position>, price: real, now: int)
    ensures Liquidate(c, ps, price, now).acct.cash == Equity(c.acct.cash, ps, price)
  {
    if |ps| > 0 {
      var front := ps[..|ps| - 1];
      LiquidateCash(c, front, price, now);
      assert Liquidate(c, ps, price, now) == LiquidateOne(Liquidate(c, front, price, now), ps[|ps| - 1], price, now);
    }
  }

  /** Liquidation writes one stop_global_sell row and one tag per snapshot row. */
  lemma {:induction false} LiquidateLog(c: Cycle, ps: seq<Position>, price: real, now: int)
    ensures var r := Liquidate(c, ps, price, now);
      && r.actions == c.actions + Repeat(StopGlobalLiquidated, |ps|)
      && r.acct.history == c.acct.history + StopEntries(ps, price, now)
  {
    if |ps| > 0 {
      var n := |ps|;
      var front := ps[..n - 1];
      LiquidateLog(c, front, price, now);
      assert Liquidate(c, ps, price, now) == LiquidateOne(Liquidate(c, front, price, now), ps[n - 1], price, now);
      RepeatSnoc(StopGlobalLiquidated, n - 1);
      StopEntriesSnoc(ps, price, now);
    }
  }

  /** The liquidation loop deletes exactly the snapshot's ids. */
  lemma {:induction false} LiquidateRows(c: Cycle, ps: seq<Position>, price: real, now: int)
    ensures forall q :: q in Liquidate(c, ps, price, now).acct.positions <==>
      q in c.acct.positions && q.id !in Ids(ps)
  {
    if |ps| > 0 {
      LiquidateRows(c, ps[..|ps| - 1], price, now);
      IdsSnoc(ps);
    }
  }

  /**
   * When equity falls more than 25% below the (updated) high-water mark, the
   * cycle sells every position at the current price and returns: no
   * position remains, the cash is the equity, the lot is reset to
   * PIRAMIDE_START if anything was sold, one stop_global_sell row per
   * position is written, and neither buy nor deposit happens.
   */
  lemma GlobalStopLiquidatesAll(a: Account, sig: Signals, symbol: string, now: int, rules: Rules)
    requires Valid(a) && sig.price.Some?
    requires var e := Equity(a.cash, a.positions, sig.price.value);
      GlobalStopFires(Peak(a.maxEquity, e), e)
    ensures var price := sig.price.value;
      var r := Evaluate(a, sig, symbol, now, rules);
      && r.outcome == StopGlobal(Repeat(StopGlobalLiquidated, |a.positions|))
      && r.acct.positions == []
      && r.acct.cash == Equity(a.cash, a.positions, price)
      && r.acct.nextLot == (if |a.positions| == 0 then a.nextLot else Config.PiramideStart)
      && r.acct.history == a.history + StopEntries(a.positions, price, now)
      && r.acct.maxEquity == Peak(a.maxEquity, Equity(a.cash, a.positions, price))
      && r.acct.lastDeposit == a.lastDeposit && r.acct.balance == a.balance
  {
    var price := sig.price.value;
    var e := Equity(a.cash, a.positions, price);
    var a1 := HighWater(a, e);
    assert a1 == a.(maxEquity := Peak(a.maxEquity, e));
    var c := Liquidate(Cycle(a1, []), a1.positions, price, now);
    LiquidateSpec(Cycle(a1, []), a1.positions, price, now);
    LiquidateRows(Cycle(a1, []), a1.positions, price, now);
    var r := Evaluate(a, sig, symbol, now, rules);
    assert r == Step(c.acct, StopGlobal(c.actions));
    FirstIsMember(c.acct.positions);
  }

  /** The cycle ends in the global stop exactly when the drawdown rule fires. */
  lemma GlobalStopIff(a: Account, sig: Signals, symbol: string, now: int, rules: Rules)
    requires Valid(a)
    ensures Evaluate(a, sig, symbol, now, rules).outcome.StopGlobal? <==>
      sig.price.Some? &&
      var e := Equity(a.cash, a.positions, sig.price.value);
      GlobalStopFires(Peak(a.maxEquity, e), e)
  {
  }

  /**
   * After a global stop the account holds no position and its cash stays
   * below 75% of an unchanged high-water mark, so every later cycle stops
   * again without buying or depositing: the account is frozen.
   */
  lemma GlobalStopIsAbsorbing(a: Account, sig: Signals, sig2: Signals, symbol: string, now: int, now2: int, rules: Rules)
    requires Valid(a) && Evaluate(a, sig, symbol, now, rules).outcome.StopGlobal?
    requires sig2.price.Some?
    ensures var b := Evaluate(a, sig, symbol, now, rules).acct;
      Valid(b) &&
      Evaluate(b, sig2, symbol, now2, rules) == Step(b, StopGlobal([]))
  {
    var price := sig.price.value;
    var e := Equity(a.cash, a.positions, price);
    GlobalStopLiquidatesAll(a, sig, symbol, now, rules);
    var b := Evaluate(a, sig, symbol, now, rules).acct;
    assert Equity(b.cash, b.positions, sig2.price.value) == e;
  }

  // ---------------------------------------------------------------------------
  // Step 4: the pyramided buy
  // ---------------------------------------------------------------------------

  /**
   * The buy branch raises ZeroDivisionError only at price 0; otherwise, with
   * the gate open, it buys exactly when the cash covers the rounded lot and
   * the lot is at least 1.  A buy spends exactly the lot (cash stays
   * non-negative), opens a position worth the lot at entry with its stop at
   * 90% of the price, advances the pyramid lot and writes one buy row; a
   * refused buy changes nothing but the action list.
   */
  lemma BuyRule(c: Cycle, canBuy: bool, rsiWeek: Option<real>, atr: Option<real>,
                price: real, symbol: string, now: int, rules: Rules)
    ensures var r := BuyStep(c, canBuy, rsiWeek, atr, price, symbol, now, rules);
      var a := c.acct;
      && (r.ZeroPrice? <==>
            (canBuy && price == 0.0 &&
             (ReadsAtr(atr) || (var lot := LotSize(a.nextLot, rsiWeek, atr, price, rules); a.cash >= lot && lot >= 1.0))))
      && (canBuy && price == 0.0 && !ReadsAtr(atr) &&
          !(var lot := LotSize(a.nextLot, rsiWeek, atr, price, rules); a.cash >= lot && lot >= 1.0) ==>
            r == Proceed(Cycle(a, c.actions + [NotEnoughCashOrLotTooSmall])))
      && (!canBuy ==> r == Proceed(c))
      && (canBuy && price != 0.0 ==>
            var lot := LotSize(a.nextLot, rsiWeek, atr, price, rules);
            var b := r.cycle.acct;
            && r.Proceed?
            && (lot <= a.cash && 1.0 <= lot ==>
                  && b.cash == a.cash - lot && b.cash >= 0.0
                  && b.positions == a.positions + [Position(a.nextId, symbol, lot / price, price, now, price * Config.TrailingStopFactor)]
                  && b.positions[|a.positions|].qty * price == lot
                  && b.nextId == a.nextId + 1
                  && b.nextLot == Round2(rules, NextPyramidLot(rules, a.nextLot))
                  && b.history == a.history + [Entry(Bought, symbol, lot / price, price, now)]
                  && b.balance == a.balance && b.maxEquity == a.maxEquity && b.lastDeposit == a.lastDeposit
                  && r.cycle.actions == c.actions + [Buy(lot)])
            && (!(lot <= a.cash && 1.0 <= lot) ==>
                  r.cycle == Cycle(a, c.actions + [NotEnoughCashOrLotTooSmall])))
  {
    if canBuy && price != 0.0 {
      var lot := LotSize(c.acct.nextLot, rsiWeek, atr, price, rules);
      assert lot / price * price == lot;
    }
  }

  /**
   * The first buy of a fresh account at 50000 with the default rules: 40 USD
   * is spent, 0.0008 units are held with the stop at 45000, and the next lot
   * is 52.
   */
  lemma FirstBuyScenario(a: Account, symbol: string, now: int, rules: Rules)
    requires a.cash == 100.0 && a.nextLot == Config.PiramideStart
    requires Round2(rules, 40.0) == 40.0 && Round2(rules, 52.0) == 52.0
    requires NextPyramidLot(rules, 40.0) == 40.0 * Config.PiramideMult
    ensures var r := BuyStep(Cycle(a, []), true, Some(60.0), None, 50000.0, symbol, now, rules);
      && r.Proceed?
      && r.cycle.acct.cash == 60.0
      && r.cycle.acct.nextLot == 52.0
      && r.cycle.acct.positions == a.positions + [Position(a.nextId, symbol, 0.0008, 50000.0, now, 45000.0)]
      && r.cycle.actions == [Buy(40.0)]
  {
    BuyRule(Cycle(a, []), true, Some(60.0), None, 50000.0, symbol, now, rules);
  }

  // ---------------------------------------------------------------------------
  // Step 5: the exit pass
  // ---------------------------------------------------------------------------

  /**
   * For one position the tiered partial sell and the trailing-stop exit
   * exclude each other: at most one row is written, a partial_sell row
   * exactly when the sell portion is positive, and the cash grows by the
   * sold quantity at the current price.  A partial sell sells `qty * pct`
   * and leaves the row with the rest and its old stop, or deletes the row
   * when nothing is left; a trailing exit sells the whole quantity and
   * removes the row; with no row written the cash is unchanged.
   */
  lemma ExitBranchesExclusive(c: Cycle, p: Position, price: real, now: int, rules: Rules)
    requires p.avgPrice != 0.0
    ensures var r := ExitBranch(c, p, price, now, rules).acct;
      var h := c.acct.history;
      var pct := SellPct(p, price, rules);
      && h <= r.history && |r.history| <= |h| + 1
      && (|r.history| == |h| + 1 <==> pct > 0.0 || price < RaisedStop(p.trailingStop, price, p.avgPrice))
      && (|r.history| == |h| + 1 ==>
            var e := r.history[|h|];
            && (e.action == PartiallySold <==> pct > 0.0)
            && (e.action == PartiallySold || e.action == TrailingStopSold)
            && e.symbol == p.symbol && e.price == price && e.time == now
            && r.cash == c.acct.cash + e.qty * price
            && (e.action == TrailingStopSold ==> e.qty == p.qty && p.id !in Ids(r.positions)))
      && (|r.history| == |h| ==> r.cash == c.acct.cash)
      && (pct > 0.0 ==>
            var sq := SellQty(p, price, rules);
            && r.history == h + [Entry(PartiallySold, p.symbol, sq, price, now)]
            && r.cash == c.acct.cash + sq * price
            && ExitBranch(c, p, price, now, rules).actions == c.actions + [PartialSold(sq)]
            && (p.qty - sq > 0.0 ==>
                  && Ids(r.positions) == Ids(c.acct.positions)
                  && forall q :: q in r.positions && q.id == p.id ==>
                       q.qty == p.qty - sq && q.trailingStop == p.trailingStop)
            && (p.qty - sq <= 0.0 ==> p.id !in Ids(r.positions)))
  {
    var r := ExitBranch(c, p, price, now, rules).acct;
    var pct := SellPct(p, price, rules);
    if pct > 0.0 {
      PartialSellEffect(c, p, price, now, rules);
    } else if price < RaisedStop(p.trailingStop, price, p.avgPrice) {
      assert forall q :: q in r.positions ==> q.id != p.id;
    }
  }

  /** The partial-sell branch alone: what is sold, what is credited and what is left of the row. */
  lemma PartialSellEffect(c: Cycle, p: Position, price: real, now: int, rules: Rules)
    requires p.avgPrice != 0.0 && SellPct(p, price, rules) > 0.0
    ensures var r := ExitBranch(c, p, price, now, rules);
      var sq := SellQty(p, price, rules);
      && r.acct.history == c.acct.history + [Entry(PartiallySold, p.symbol, sq, price, now)]
      && r.acct.cash == c.acct.cash + sq * price
      && r.actions == c.actions + [PartialSold(sq)]
      && (p.qty - sq > 0.0 ==>
            && Ids(r.acct.positions) == Ids(c.acct.positions)
            && forall q :: q in r.acct.positions && q.id == p.id ==>
                 q.qty == p.qty - sq && q.trailingStop == p.trailingStop)
      && (p.qty - sq <= 0.0 ==> p.id !in Ids(r.acct.positions))
  {
    var sq := SellQty(p, price, rules);
    var b := UpdatePositionQtyAndStop(c.acct, p.id, p.qty - sq, p.trailingStop);
    UpdatePositionSpec(c.acct, p.id, p.qty - sq, p.trailingStop);
    assert ExitBranch(c, p, price, now, rules).acct.positions == b.positions;
  }

  /**
   * When a position is neither partly sold nor stopped out, its row keeps
   * its quantity and its stop becomes the raised stop: 90% of the price when
   * that is higher and the price is above entry, else the old stop.
   */
  lemma TrailingStopHeld(c: Cycle, p: Position, price: real, now: int, rules: Rules)
    requires p.avgPrice != 0.0 && p.qty > 0.0
    requires SellPct(p, price, rules) <= 0.0
    requires price >= RaisedStop(p.trailingStop, price, p.avgPrice)
    ensures var r := ExitBranch(c, p, price, now, rules);
      && r.acct.history == c.acct.history && r.acct.cash == c.acct.cash && r.actions == c.actions
      && Ids(r.acct.positions) == Ids(c.acct.positions)
      && forall q :: q in r.acct.positions && q.id == p.id ==>
           q.qty == p.qty && q.trailingStop == RaisedStop(p.trailingStop, price, p.avgPrice)
  {
    UpdatePositionSpec(c.acct, p.id, p.qty, RaisedStop(p.trailingStop, price, p.avgPrice));
  }

  /**
   * The time stop reads the snapshot taken before the exit branch.  After a
   * trailing-stop exit of the same position it still credits half of the
   * snapshot quantity, so 1.5 times the held quantity is paid out, while
   * its update of the deleted row does nothing.
   */
  lemma TimeStopAfterTrailingExit(c: Cycle, p: Position, price: real, now: int, rules: Rules)
    requires p.avgPrice != 0.0 && TimeStopFires(p, price, now)
    requires SellPct(p, price, rules) <= 0.0
    requires price < RaisedStop(p.trailingStop, price, p.avgPrice)
    ensures var r := ExitPosition(c, p, price, now, rules);
      && r.acct.cash == c.acct.cash + p.qty * price + p.qty * 0.5 * price
      && p.id !in Ids(r.acct.positions)
      && r.acct.positions == Without(c.acct.positions, p.id)
      && r.actions == c.actions + [TrailingStopExecuted, TimeStopPartial]
      && r.acct.history == c.acct.history + [Entry(TrailingStopSold, p.symbol, p.qty, price, now),
                                             Entry(TimeStopPartiallySold, p.symbol, p.qty * 0.5, price, now)]
  {
    var m := ExitBranch(c, p, price, now, rules);
    assert p.id !in Ids(m.acct.positions);
    var a1 := UpdateUserBalanceAndLot(m.acct, m.acct.balance, m.acct.cash + p.qty * 0.5 * price, None, None);
    UpdateOfMissingIdIsNoop(a1, p.id, p.qty - p.qty * 0.5, p.trailingStop);
  }

  /**
   * After a partial sell of the same position the time stop writes back half
   * of the snapshot quantity, not half of what is left, and the snapshot
   * stop; the row ends with half its original quantity although a further
   * fraction was sold.
   */
  lemma TimeStopAfterPartialSell(c: Cycle, p: Position, price: real, now: int, rules: Rules)
    requires p.avgPrice != 0.0 && p.qty > 0.0 && TimeStopFires(p, price, now)
    requires SellPct(p, price, rules) > 0.0
    ensures var r := ExitPosition(c, p, price, now, rules);
      var pct := SellPct(p, price, rules);
      && r.acct.cash == c.acct.cash + SellQty(p, price, rules) * price + p.qty * 0.5 * price
      && (forall q :: q in r.acct.positions && q.id == p.id ==>
            q.qty == p.qty * 0.5 && q.trailingStop == p.trailingStop)
      && (pct < 1.0 ==> Ids(r.acct.positions) == Ids(c.acct.positions))
  {
    var m := ExitBranch(c, p, price, now, rules);
    PartialSellEffect(c, p, price, now, rules);
    TimeStopHalves(m, p, price, now);
    assert ExitPosition(c, p, price, now, rules) == TimeStop(m, p, price, now);
    if SellPct(p, price, rules) < 1.0 {
      PartialRest(p, price, rules);
    }
  }

  /** A firing time stop credits half the snapshot quantity and writes back half of it with the snapshot stop. */
  lemma TimeStopHalves(m: Cycle, p: Position, price: real, now: int)
    requires p.avgPrice != 0.0 && p.qty > 0.0 && TimeStopFires(p, price, now)
    ensures var r := TimeStop(m, p, price, now).acct;
      && r.cash == m.acct.cash + p.qty * 0.5 * price
      && Ids(r.positions) == Ids(m.acct.positions)
      && (forall q :: q in r.positions && q.id == p.id ==> q.qty == p.qty * 0.5 && q.trailingStop == p.trailingStop)
      && r.history == m.acct.history + [Entry(TimeStopPartiallySold, p.symbol, p.qty * 0.5, price, now)]
      && TimeStop(m, p, price, now).actions == m.actions + [TimeStopPartial]
  {
    var a1 := UpdateUserBalanceAndLot(m.acct, m.acct.balance, m.acct.cash + p.qty * 0.5 * price, None, None);
    UpdatePositionSpec(a1, p.id, p.qty - p.qty * 0.5, p.trailingStop);
  }

  /** Selling a fraction below 1 of a positive quantity leaves a positive rest. */
  lemma PartialRest(p: Position, price: real, rules: Rules)
    requires p.avgPrice != 0.0 && p.qty > 0.0 && 0.0 < SellPct(p, price, rules) < 1.0
    ensures p.qty - SellQty(p, price, rules) > 0.0
  {
    var pct := SellPct(p, price, rules);
    MulPositive(p.qty, 1.0 - pct);
    assert p.qty * (1.0 - pct) == p.qty - p.qty * pct;
  }

  /**
   * A raised trailing stop is undone when the time stop fires for the same
   * position: the row gets back the snapshot's stop.
   */
  lemma TimeStopRevertsRaisedStop(c: Cycle, p: Position, price: real, now: int, rules: Rules)
    requires p.avgPrice != 0.0 && p.qty > 0.0 && TimeStopFires(p, price, now)
    requires SellPct(p, price, rules) <= 0.0
    requires price >= RaisedStop(p.trailingStop, price, p.avgPrice)
    ensures var r := ExitPosition(c, p, price, now, rules);
      && Ids(r.acct.positions) == Ids(c.acct.positions)
      && forall q :: q in r.acct.positions && q.id == p.id ==>
           q.qty == p.qty * 0.5 && q.trailingStop == p.trailingStop
  {
    var m := ExitBranch(c, p, price, now, rules);
    TrailingStopHeld(c, p, price, now, rules);
    var a1 := UpdateUserBalanceAndLot(m.acct, m.acct.balance, m.acct.cash + p.qty * 0.5 * price, None, None);
    UpdatePositionSpec(a1, p.id, p.qty - p.qty * 0.5, p.trailingStop);
  }

  /** The rows an exit iteration may leave for `p`: untouched rows of others, or `p`'s row rewritten. */
  predicate RowsAfter(before: seq<Position>, after: seq<Position>, p: Position)
  {
    forall q :: q in after ==>
      (q.id != p.id && q in before) ||
      (q.id == p.id && q.qty > 0.0 && q.trailingStop >= p.trailingStop)
  }

  lemma ExitBranchRows(c: Cycle, p: Position, price: real, now: int, rules: Rules)
    requires p.avgPrice != 0.0
    ensures RowsAfter(c.acct.positions, ExitBranch(c, p, price, now, rules).acct.positions, p)
  {
    var a := c.acct;
    var pct := SellPct(p, price, rules);
    var newStop := RaisedStop(p.trailingStop, price, p.avgPrice);
    var r := ExitBranch(c, p, price, now, rules).acct.positions;
    if pct > 0.0 {
      UpdateRows(a, p.id, p.qty - SellQty(p, price, rules), p.trailingStop);
      assert r == UpdatePositionQtyAndStop(a, p.id, p.qty - SellQty(p, price, rules), p.trailingStop).positions;
    } else if price < newStop {
      assert r == Without(a.positions, p.id);
    } else {
      UpdateRows(a, p.id, p.qty, newStop);
      assert r == UpdatePositionQtyAndStop(a, p.id, p.qty, newStop).positions;
    }
  }

  lemma ExitBranchValid(c: Cycle, p: Position, price: real, now: int, rules: Rules)
    requires p.avgPrice != 0.0 && Valid(c.acct)
    ensures Valid(ExitBranch(c, p, price, now, rules).acct)
  {
    var a := c.acct;
    var pct := SellPct(p, price, rules);
    var newStop := RaisedStop(p.trailingStop, price, p.avgPrice);
    if pct > 0.0 {
      UpdatePositionKeepsValid(a, p.id, p.qty - SellQty(p, price, rules), p.trailingStop);
    } else if price < newStop {
      DeletePositionKeepsValid(a, p.id);
    } else {
      UpdatePositionKeepsValid(a, p.id, p.qty, newStop);
    }
  }

  lemma TimeStopRows(c: Cycle, p: Position, price: real, now: int)
    requires p.avgPrice != 0.0
    ensures var r := TimeStop(c, p, price, now).acct.positions;
      forall q :: q in r ==> (q in c.acct.positions ||
        (q.id == p.id && q.qty > 0.0 && q.trailingStop == p.trailingStop))
    ensures Valid(c.acct) ==> Valid(TimeStop(c, p, price, now).acct)
  {
    if TimeStopFires(p, price, now) {
      var a1 := UpdateUserBalanceAndLot(c.acct, c.acct.balance, c.acct.cash + p.qty * 0.5 * price, None, None);
      UpdateRows(a1, p.id, p.qty - p.qty * 0.5, p.trailingStop);
      if Valid(c.acct) {
        UpdatePositionKeepsValid(a1, p.id, p.qty - p.qty * 0.5, p.trailingStop);
      }
    }
  }

  /**
   * After one exit iteration every row is either an untouched row of another
   * position or this position's row with a positive quantity and a stop no
   * lower than its snapshot stop; the ledger invariants still hold.
   */
  lemma ExitPositionRows(c: Cycle, p: Position, price: real, now: int, rules: Rules)
    requires p.avgPrice != 0.0
    ensures RowsAfter(c.acct.positions, ExitPosition(c, p, price, now, rules).acct.positions, p)
    ensures Valid(c.acct) ==> Valid(ExitPosition(c, p, price, now, rules).acct)
  {
    var m := ExitBranch(c, p, price, now, rules);
    ExitBranchRows(c, p, price, now, rules);
    if Valid(c.acct) {
      ExitBranchValid(c, p, price, now, rules);
    }
    TimeStopRows(m, p, price, now);
  }

  lemma ExitBranchCash(c: Cycle, p: Position, price: real, now: int, rules: Rules)
    requires p.avgPrice != 0.0 && p.qty >= 0.0 && price >= 0.0
    requires SellPct(p, price, rules) >= 0.0
    ensures ExitBranch(c, p, price, now, rules).acct.cash >= c.acct.cash
  {
    MulNonNegative(p.qty, SellPct(p, price, rules));
    MulNonNegative(SellQty(p, price, rules), price);
    MulNonNegative(p.qty, price);
  }

  /** With non-negative prices, quantities and sell portions an exit iteration only adds cash. */
  lemma ExitPositionCash(c: Cycle, p: Position, price: real, now: int, rules: Rules)
    requires p.avgPrice != 0.0 && p.qty >= 0.0 && price >= 0.0
    requires SellPct(p, price, rules) >= 0.0
    ensures ExitPosition(c, p, price, now, rules).acct.cash >= c.acct.cash
  {
    ExitBranchCash(c, p, price, now, rules);
    MulNonNegative(p.qty * 0.5, price);
  }

  /** With non-negative prices, quantities and sell portions the exit pass only adds cash. */
  lemma {:induction false} ExitPassCash(c: Cycle, ps: seq<Position>, price: real, now: int, rules: Rules)
    requires forall p :: p in ps ==> p.avgPrice != 0.0 && p.qty >= 0.0
    requires price >= 0.0 && forall x :: SellPortion(rules, x) >= 0.0
    ensures ExitPass(c, ps, price, now, rules).acct.cash >= c.acct.cash
  {
    if |ps| > 0 {
      var n := |ps|;
      assert ps[n - 1] in ps;
      ExitPassCash(c, ps[..n - 1], price, now, rules);
      ExitPositionCash(ExitPass(c, ps[..n - 1], price, now, rules), ps[n - 1], price, now, rules);
    }
  }

  // ---------------------------------------------------------------------------
  // The whole cycle
  // ---------------------------------------------------------------------------

  /**
   * One cycle appends to the history and never rewrites it, every new row is
   * stamped with the current day, and the table invariants still hold.
   */
  lemma EvaluateKeepsLedger(a: Account, sig: Signals, symbol: string, now: int, rules: Rules)
    requires Valid(a)
    ensures var r := Evaluate(a, sig, symbol, now, rules).acct;
      Valid(r) && Extends(a.history, r.history, now)
  {
    if sig.price.Some? {
      var price := sig.price.value;
      var e := Equity(a.cash, a.positions, price);
      var a1 := HighWater(a, e);
      if GlobalStopFires(a1.maxEquity, e) {
        GlobalStopLiquidatesAll(a, sig, symbol, now, rules);
      } else {
        var canBuy := EntryGate(price, sig.mm200, sig.mm50, sig.macd, sig.rsiWeek);
        var br := BuyStep(Cycle(a1, []), canBuy, sig.rsiWeek, sig.atr, price, symbol, now, rules);
        BuyFrame(Cycle(a1, []), canBuy, sig.rsiWeek, sig.atr, price, symbol, now, rules);
        if br.Proceed? {
          BuyKeepsValid(Cycle(a1, []), canBuy, sig.rsiWeek, sig.atr, price, symbol, now, rules);
          var c2 := br.cycle;
          var P := c2.acct.positions;
          var c3 := ExitPass(c2, P, price, now, rules);
          NotLoweredRefl(P);
          ExitPassFrame(c2, P, price, now, rules);
          ExitPassRowsValid(c2, price, now, rules);
          DepositFrame(c3, symbol, now);
          ExtendsTrans(a.history, c2.acct.history, c3.acct.history, now);
          ExtendsTrans(a.history, c3.acct.history, DepositStep(c3, symbol, now).acct.history, now);
        } else {
          assert Extends(a.history, a1.history, now);
        }
      }
    } else {
      assert Extends(a.history, a.history, now);
    }
  }

  /** `ExitPassValid` for the pass over the account's own rows, whose prices `Valid` already makes non-zero. */
  lemma ExitPassRowsValid(c: Cycle, price: real, now: int, rules: Rules)
    requires Valid(c.acct)
    ensures Valid(ExitPass(c, c.acct.positions, price, now, rules).acct)
  {
    ExitPassValid(c, c.acct.positions, price, now, rules);
  }

  lemma {:induction false} ExitPassValid(c: Cycle, ps: seq<Position>, price: real, now: int, rules: Rules)
    requires Valid(c.acct)
    requires forall p :: p in ps ==> p.avgPrice != 0.0
    ensures Valid(ExitPass(c, ps, price, now, rules).acct)
  {
    if |ps| > 0 {
      var n := |ps|;
      assert ps[n - 1] in ps;
      ExitPassValid(c, ps[..n - 1], price, now, rules);
      ExitPositionRows(ExitPass(c, ps[..n - 1], price, now, rules), ps[n - 1], price, now, rules);
    }
  }

  /**
   * No trailing stop stored in the ledger is ever lowered by a cycle: every
   * row after the cycle has a stop at least that of the row with its id
   * before.
   */
  lemma TrailingStopsNeverLowered(a: Account, sig: Signals, symbol: string, now: int, rules: Rules)
    requires Valid(a)
    ensures NotLowered(a.positions, Evaluate(a, sig, symbol, now, rules).acct.positions)
  {
    NotLoweredRefl(a.positions);
    if sig.price.Some? {
      var price := sig.price.value;
      var e := Equity(a.cash, a.positions, price);
      var a1 := HighWater(a, e);
      if GlobalStopFires(a1.maxEquity, e) {
        GlobalStopLiquidatesAll(a, sig, symbol, now, rules);
      } else {
        var canBuy := EntryGate(price, sig.mm200, sig.mm50, sig.macd, sig.rsiWeek);
        var br := BuyStep(Cycle(a1, []), canBuy, sig.rsiWeek, sig.atr, price, symbol, now, rules);
        BuyFrame(Cycle(a1, []), canBuy, sig.rsiWeek, sig.atr, price, symbol, now, rules);
        if br.Proceed? {
          BuyKeepsValid(Cycle(a1, []), canBuy, sig.rsiWeek, sig.atr, price, symbol, now, rules);
          var c2 := br.cycle;
          var P := c2.acct.positions;
          var c3 := ExitPass(c2, P, price, now, rules);
          DepositFrame(c3, symbol, now);
          assert Evaluate(a, sig, symbol, now, rules).acct.positions == c3.acct.positions;
          ExitPassStops(c2, P, price, now, rules);
          assert a1.positions == a.positions;
          NotLoweredSub(a.positions, P, c3.acct.positions);
        }
      }
    }
  }

  /** A stop not lowered against a longer list is not lowered against a part of it. */
  lemma NotLoweredSub(before: seq<Position>, mid: seq<Position>, cur: seq<Position>)
    requires before <= mid && NotLowered(mid, cur)
    ensures NotLowered(before, cur)
  {
    forall q, p | q in cur && p in before && q.id == p.id ensures q.trailingStop >= p.trailingStop {
      var i :| 0 <= i < |before| && before[i] == p;
      assert mid[i] == p;
    }
  }

  lemma {:induction false} ExitPassStops(c: Cycle, P: seq<Position>, price: real, now: int, rules: Rules)
    requires Valid(c.acct) && P == c.acct.positions
    ensures NotLowered(P, ExitPass(c, P, price, now, rules).acct.positions)
  {
    StopsFold(c, P, P, price, now, rules);
  }

  lemma {:induction false} StopsFold(c: Cycle, snapshot: seq<Position>, ps: seq<Position>,
                                     price: real, now: int, rules: Rules)
    requires DistinctIds(snapshot)
    requires forall p :: p in ps ==> p in snapshot && p.avgPrice != 0.0
    requires NotLowered(snapshot, c.acct.positions)
    ensures NotLowered(snapshot, ExitPass(c, ps, price, now, rules).acct.positions)
  {
    if |ps| > 0 {
      var n := |ps|;
      var x := ps[n - 1];
      assert x in ps;
      var m := ExitPass(c, ps[..n - 1], price, now, rules);
      StopsFold(c, snapshot, ps[..n - 1], price, now, rules);
      ExitPositionRows(m, x, price, now, rules);
      var r := ExitPosition(m, x, price, now, rules).acct;
      forall q, p | q in r.positions && p in snapshot && q.id == p.id
        ensures q.trailingStop >= p.trailingStop
      {
        if q.id == x.id {
          SameIdSameRow(snapshot, x, p);
        }
      }
    }
  }

  /**
   * Quantities stay positive through the exit pass: a row whose quantity
   * would drop to zero or below is deleted instead.
   */
  lemma {:induction false} ExitPassQty(c: Cycle, ps: seq<Position>, price: real, now: int, rules: Rules)
    requires forall p :: p in ps ==> p.avgPrice != 0.0
    requires forall q :: q in c.acct.positions ==> q.qty > 0.0
    ensures forall q :: q in ExitPass(c, ps, price, now, rules).acct.positions ==> q.qty > 0.0
  {
    if |ps| > 0 {
      var n := |ps|;
      assert ps[n - 1] in ps;
      ExitPassQty(c, ps[..n - 1], price, now, rules);
      ExitPositionRows(ExitPass(c, ps[..n - 1], price, now, rules), ps[n - 1], price, now, rules);
    }
  }

  /**
   * With a non-negative price and sell portions that are never negative, a
   * solvent ledger stays solvent: a buy spends at most the cash and adds a
   * positive quantity, every sale and deposit only adds to the cash, and an
   * exit that would leave no quantity deletes the row.
   */
  lemma CycleKeepsSolvent(a: Account, sig: Signals, symbol: string, now: int, rules: Rules)
    requires Valid(a) && Solvent(a)
    requires sig.price.Some? ==> sig.price.value >= 0.0
    requires forall x :: SellPortion(rules, x) >= 0.0
    ensures Solvent(Evaluate(a, sig, symbol, now, rules).acct)
  {
    if sig.price.Some? {
      var price := sig.price.value;
      var e := Equity(a.cash, a.positions, price);
      var a1 := HighWater(a, e);
      if GlobalStopFires(a1.maxEquity, e) {
        GlobalStopLiquidatesAll(a, sig, symbol, now, rules);
      } else {
        var canBuy := EntryGate(price, sig.mm200, sig.mm50, sig.macd, sig.rsiWeek);
        var br := BuyStep(Cycle(a1, []), canBuy, sig.rsiWeek, sig.atr, price, symbol, now, rules);
        if br.Proceed? {
          BuyKeepsValid(Cycle(a1, []), canBuy, sig.rsiWeek, sig.atr, price, symbol, now, rules);
          BuyKeepsSolvent(Cycle(a1, []), canBuy, sig.rsiWeek, sig.atr, price, symbol, now, rules);
          var c2 := br.cycle;
          var P := c2.acct.positions;
          forall p | p in P ensures p.avgPrice != 0.0 && p.qty >= 0.0 { }
          ExitPassCash(c2, P, price, now, rules);
          ExitPassQty(c2, P, price, now, rules);
          var c3 := ExitPass(c2, P, price, now, rules);
          DepositStepSpec(c3, symbol, now);
          DepositFrame(c3, symbol, now);
          var c4 := DepositStep(c3, symbol, now);
          assert Evaluate(a, sig, symbol, now, rules).acct == c4.acct;
        }
      }
    }
  }

  /** The buy spends at most the cash it finds and adds a row with a positive quantity. */
  lemma BuyKeepsSolvent(c: Cycle, canBuy: bool, rsiWeek: Option<real>, atr: Option<real>,
                        price: real, symbol: string, now: int, rules: Rules)
    requires Solvent(c.acct) && price >= 0.0
    ensures var r := BuyStep(c, canBuy, rsiWeek, atr, price, symbol, now, rules);
      r.Proceed? ==> Solvent(r.cycle.acct)
  {
    BuyRule(c, canBuy, rsiWeek, atr, price, symbol, now, rules);
    if canBuy && price != 0.0 {
      var lot := LotSize(c.acct.nextLot, rsiWeek, atr, price, rules);
      if lot <= c.acct.cash && 1.0 <= lot {
        assert lot / price > 0.0 by { DivPositive(lot, price); }
      }
    }
  }

  /**
   * The cycle that completes credits MONTHLY_DEPOSIT and moves the deposit
   * date to today exactly when 30 days have passed since the last deposit;
   * any other outcome leaves the deposit date alone.
   */
  lemma MonthlyDepositRule(a: Account, sig: Signals, symbol: string, now: int, rules: Rules)
    requires Valid(a)
    ensures var r := Evaluate(a, sig, symbol, now, rules);
      && (r.outcome.Done? && DepositDue(a, now) ==>
            && r.acct.lastDeposit == now
            && |r.acct.history| > 0 && r.acct.history[|r.acct.history| - 1] == Entry(MonthlyDeposited, symbol, 0.0, 0.0, now)
            && |r.outcome.actions| > 0 && r.outcome.actions[|r.outcome.actions| - 1] == MonthlyDepositDone)
      && (!(r.outcome.Done? && DepositDue(a, now)) ==> r.acct.lastDeposit == a.lastDeposit)
  {
    if sig.price.Some? {
      var price := sig.price.value;
      var e := Equity(a.cash, a.positions, price);
      var a1 := HighWater(a, e);
      if GlobalStopFires(a1.maxEquity, e) {
        LiquidateSpec(Cycle(a1, []), a1.positions, price, now);
      } else {
        var canBuy := EntryGate(price, sig.mm200, sig.mm50, sig.macd, sig.rsiWeek);
        var br := BuyStep(Cycle(a1, []), canBuy, sig.rsiWeek, sig.atr, price, symbol, now, rules);
        BuyFrame(Cycle(a1, []), canBuy, sig.rsiWeek, sig.atr, price, symbol, now, rules);
        if br.Proceed? {
          BuyKeepsValid(Cycle(a1, []), canBuy, sig.rsiWeek, sig.atr, price, symbol, now, rules);
          var c2 := br.cycle;
          ExitPassFrame(c2, c2.acct.positions, price, now, rules);
          var c3 := ExitPass(c2, c2.acct.positions, price, now, rules);
          assert c3.acct.lastDeposit == a.lastDeposit;
          DepositStepSpec(c3, symbol, now);
          var c4 := DepositStep(c3, symbol, now);
          assert Evaluate(a, sig, symbol, now, rules) == Step(c4.acct, Done(c4.actions, e, c4.acct.cash));
        }
      }
    }
  }

  /** The deposit step alone: credit, date and one row and tag when due, nothing otherwise. */
  lemma DepositStepSpec(c: Cycle, symbol: string, now: int)
    ensures var d := DepositStep(c, symbol, now);
      && (DepositDue(c.acct, now) ==>
            && d.acct.lastDeposit == now
            && d.acct.cash == c.acct.cash + Config.MonthlyDeposit
            && d.acct.history == c.acct.history + [Entry(MonthlyDeposited, symbol, 0.0, 0.0, now)]
            && d.actions == c.actions + [MonthlyDepositDone])
      && (!DepositDue(c.acct, now) ==> d == c)
  {
  }
}
