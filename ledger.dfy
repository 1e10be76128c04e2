/**
 * One user's ledger: the `users` row, that user's `positions` rows and the
 * append-only `history` (the SQLite tables of app.py:78-118, held in memory).
 * The CRUD helpers of app.py:155-196 are pure functions from the old ledger
 * to the new one; engine.dfy wraps each in a method of the ledger object.
 */
module Ledger {
  import opened Options
  import Config

  /** A `positions` row; `entryTime` is a day count. */
  datatype Position = Position(id: nat, symbol: string, qty: real, avgPrice: real, entryTime: int, trailingStop: real)

  /** The `action` column written by evaluate_user_strategy. */
  datatype Action = Bought | PartiallySold | TrailingStopSold | TimeStopPartiallySold | StopGlobalSold | MonthlyDeposited

  /** A `history` row (the free-text `info` column is not modelled). */
  datatype Entry = Entry(action: Action, symbol: string, qty: real, price: real, time: int)

  /**
   * The `users` row together with the user's positions, in insertion order,
   * and history.  `nextId` stands for the AUTOINCREMENT counter of `positions`.
   */
  datatype Account = Account(
    balance: real,
    cash: real,
    nextLot: real,
    maxEquity: real,
    lastDeposit: int,
    positions: seq<Position>,
    nextId: nat,
    history: seq<Entry>)

  function Ids(ps: seq<Position>): set<nat>
  {
    set p | p in ps :: p.id
  }

  /** `id` is the primary key of `positions`. */
  predicate DistinctIds(ps: seq<Position>)
  {
    forall i, j :: 0 <= i < j < |ps| ==> ps[i].id != ps[j].id
  }

  /**
   * What the tables guarantee: ids are unique and below the counter, and every
   * position was bought at a non-zero price (a buy at price 0 raises
   * ZeroDivisionError before the row is inserted).
   */
  predicate Valid(a: Account)
  {
    && DistinctIds(a.positions)
    && (forall p :: p in a.positions ==> p.id < a.nextId && p.avgPrice != 0.0)
  }

  /** create_user_db: cash and high-water mark start at the initial balance, the lot at PIRAMIDE_START. */
  function NewAccount(initialBalance: real, now: int): (a: Account)
    ensures Valid(a) && a.positions == [] && a.history == []
    ensures a.cash == a.balance == a.maxEquity == initialBalance
    ensures a.nextLot == Config.PiramideStart && a.lastDeposit == now
  {
    Account(initialBalance, initialBalance, Config.PiramideStart, initialBalance, now, [], 0, [])
  }

  /** update_user_balance_and_lot: an absent lot or high-water mark keeps the stored one. */
  function UpdateUserBalanceAndLot(a: Account, newBalance: real, newCash: real,
                                    nextLot: Option<real>, maxEquity: Option<real>): (b: Account)
    ensures b.balance == newBalance && b.cash == newCash
    ensures b.nextLot == (if nextLot.Some? then nextLot.value else a.nextLot)
    ensures b.maxEquity == (if maxEquity.Some? then maxEquity.value else a.maxEquity)
    ensures b.positions == a.positions && b.history == a.history
    ensures b.nextId == a.nextId && b.lastDeposit == a.lastDeposit
  {
    a.(balance := newBalance, cash := newCash,
       nextLot := if nextLot.Some? then nextLot.value else a.nextLot,
       maxEquity := if maxEquity.Some? then maxEquity.value else a.maxEquity)
  }

  /** save_history: one row appended, stamped with the current day. */
  function SaveHistory(a: Account, action: Action, symbol: string, qty: real, price: real, now: int): (b: Account)
    ensures b.(history := a.history) == a
    ensures a.history < b.history && |b.history| == |a.history| + 1
    ensures b.history[|a.history|] == Entry(action, symbol, qty, price, now)
  {
    a.(history := a.history + [Entry(action, symbol, qty, price, now)])
  }

  /** add_position: a new row with the next id, entered today. */
  function AddPosition(a: Account, symbol: string, qty: real, avgPrice: real, trailingStop: real, now: int): (b: Account)
    ensures b.(positions := a.positions, nextId := a.nextId) == a
    ensures a.positions < b.positions && |b.positions| == |a.positions| + 1
    ensures b.positions[|a.positions|] == Position(a.nextId, symbol, qty, avgPrice, now, trailingStop)
    ensures b.nextId == a.nextId + 1
  {
    a.(positions := a.positions + [Position(a.nextId, symbol, qty, avgPrice, now, trailingStop)],
       nextId := a.nextId + 1)
  }

  /** `DELETE FROM positions WHERE id=?` on a list of rows. */
  function Without(ps: seq<Position>, id: nat): (r: seq<Position>)
    ensures forall q :: q in r <==> q in ps && q.id != id
  {
    if |ps| == 0 then []
    else
      assert ps == [ps[0]] + ps[1..];
      (if ps[0].id == id then [] else [ps[0]]) + Without(ps[1..], id)
  }

  /** `UPDATE positions SET qty=?, trailing_stop=? WHERE id=?` on a list of rows. */
  function SetQtyAndStop(ps: seq<Position>, id: nat, qty: real, stop: real): seq<Position>
  {
    seq(|ps|, i requires 0 <= i < |ps| =>
      if ps[i].id == id then ps[i].(qty := qty, trailingStop := stop) else ps[i])
  }

  /** delete_position. */
  function DeletePosition(a: Account, id: nat): (b: Account)
    ensures b.(positions := a.positions) == a
    ensures forall q :: q in b.positions <==> q in a.positions && q.id != id
    ensures id !in Ids(b.positions)
  {
    a.(positions := Without(a.positions, id))
  }

  /** update_position_qty_and_stop: a quantity that is not positive deletes the row instead. */
  function UpdatePositionQtyAndStop(a: Account, id: nat, newQty: real, newStop: real): (b: Account)
    ensures b.(positions := a.positions) == a
    ensures newQty <= 0.0 ==> b == DeletePosition(a, id)
    ensures newQty > 0.0 ==>
      && |b.positions| == |a.positions|
      && forall i :: 0 <= i < |a.positions| ==>
           && b.positions[i].id == a.positions[i].id
           && (a.positions[i].id != id ==> b.positions[i] == a.positions[i])
           && (a.positions[i].id == id ==> b.positions[i] == a.positions[i].(qty := newQty, trailingStop := newStop))
  {
    if newQty <= 0.0 then DeletePosition(a, id)
    else a.(positions := SetQtyAndStop(a.positions, id, newQty, newStop))
  }

  /**
   * update_position_qty_and_stop removes the row when the new quantity is not
   * positive, and otherwise rewrites quantity and stop of that row alone; no
   * other row, and nothing outside `positions`, changes.
   */
  lemma UpdatePositionSpec(a: Account, id: nat, newQty: real, newStop: real)
    ensures var b := UpdatePositionQtyAndStop(a, id, newQty, newStop);
      && b.(positions := a.positions) == a
      && (forall q :: q in b.positions && q.id != id <==> q in a.positions && q.id != id)
      && (newQty <= 0.0 ==> id !in Ids(b.positions))
      && (newQty > 0.0 ==> Ids(b.positions) == Ids(a.positions))
      && (newQty > 0.0 ==> forall q :: q in b.positions && q.id == id ==>
            q.qty == newQty && q.trailingStop == newStop &&
            exists p :: p in a.positions && p == q.(qty := p.qty, trailingStop := p.trailingStop))
  {
    var b := UpdatePositionQtyAndStop(a, id, newQty, newStop);
    if newQty > 0.0 {
      var ps := a.positions;
      forall q | q in b.positions
        ensures exists i :: 0 <= i < |ps| && q == (if ps[i].id == id then ps[i].(qty := newQty, trailingStop := newStop) else ps[i])
      {
        var i :| 0 <= i < |b.positions| && b.positions[i] == q;
      }
      forall q | q in ps && q.id != id ensures q in b.positions {
        var i :| 0 <= i < |ps| && ps[i] == q;
        assert b.positions[i] == q;
      }
      forall x | x in Ids(ps) ensures x in Ids(b.positions) {
        var p :| p in ps && p.id == x;
        var i :| 0 <= i < |ps| && ps[i] == p;
        assert b.positions[i].id == x;
      }
    }
  }

  /** Updating or deleting an id that has no row leaves the ledger as it was. */
  lemma UpdateOfMissingIdIsNoop(a: Account, id: nat, newQty: real, newStop: real)
    requires id !in Ids(a.positions)
    ensures UpdatePositionQtyAndStop(a, id, newQty, newStop) == a
  {
    WithoutMissing(a.positions, id);
    assert SetQtyAndStop(a.positions, id, newQty, newStop) == a.positions;
  }

  lemma WithoutMissing(ps: seq<Position>, id: nat)
    requires id !in Ids(ps)
    ensures Without(ps, id) == ps
  {
    forall k | 0 <= k < |ps| ensures ps[k].id != id {
      assert ps[k] in ps;
    }
    WithoutNoMatch(ps, id);
  }

  lemma {:induction false} WithoutNoMatch(ps: seq<Position>, id: nat)
    requires forall k :: 0 <= k < |ps| ==> ps[k].id != id
    ensures Without(ps, id) == ps
  {
    if |ps| > 0 {
      var rest := ps[1..];
      forall k | 0 <= k < |rest| ensures rest[k].id != id {
        assert rest[k] == ps[k + 1];
      }
      WithoutNoMatch(rest, id);
      assert Without(ps, id) == [ps[0]] + Without(rest, id);
      assert ps == [ps[0]] + rest;
    }
  }

  lemma {:induction false} WithoutDistinct(ps: seq<Position>, id: nat)
    requires DistinctIds(ps)
    ensures DistinctIds(Without(ps, id))
  {
    if |ps| > 0 {
      var rest := ps[1..];
      assert DistinctIds(rest) by {
        forall i, j | 0 <= i < j < |rest| ensures rest[i].id != rest[j].id {
          assert rest[i] == ps[i + 1] && rest[j] == ps[j + 1];
        }
      }
      WithoutDistinct(rest, id);
      if ps[0].id != id {
        var wr := Without(rest, id);
        forall q | q in wr ensures q.id != ps[0].id {
          var k :| 0 <= k < |rest| && rest[k] == q;
          assert ps[k + 1] == q;
        }
        ConsDistinct(ps[0], wr);
      }
    }
  }

  lemma ConsDistinct(x: Position, ps: seq<Position>)
    requires DistinctIds(ps) && forall q :: q in ps ==> q.id != x.id
    ensures DistinctIds([x] + ps)
  {
    var r := [x] + ps;
    forall i, j | 0 <= i < j < |r| ensures r[i].id != r[j].id {
      assert r[j] == ps[j - 1];
      if i > 0 {
        assert r[i] == ps[i - 1];
      }
    }
  }

  lemma SetQtyAndStopDistinct(ps: seq<Position>, id: nat, qty: real, stop: real)
    requires DistinctIds(ps)
    ensures DistinctIds(SetQtyAndStop(ps, id, qty, stop))
  {
  }

  /** The ledger helpers keep the table invariants. */
  lemma UpdatePositionKeepsValid(a: Account, id: nat, newQty: real, newStop: real)
    requires Valid(a)
    ensures Valid(UpdatePositionQtyAndStop(a, id, newQty, newStop))
  {
    if newQty <= 0.0 {
      WithoutDistinct(a.positions, id);
    } else {
      SetQtyAndStopDistinct(a.positions, id, newQty, newStop);
      var ps := SetQtyAndStop(a.positions, id, newQty, newStop);
      forall p | p in ps ensures p.id < a.nextId && p.avgPrice != 0.0 {
        var i :| 0 <= i < |ps| && ps[i] == p;
        assert a.positions[i] in a.positions;
      }
    }
  }

  lemma DeletePositionKeepsValid(a: Account, id: nat)
    requires Valid(a)
    ensures Valid(DeletePosition(a, id))
  {
    WithoutDistinct(a.positions, id);
  }

  lemma AddPositionKeepsValid(a: Account, symbol: string, qty: real, avgPrice: real, trailingStop: real, now: int)
    requires Valid(a) && avgPrice != 0.0
    ensures Valid(AddPosition(a, symbol, qty, avgPrice, trailingStop, now))
    ensures a.nextId !in Ids(a.positions)
  {
    var b := AddPosition(a, symbol, qty, avgPrice, trailingStop, now);
    forall i, j | 0 <= i < j < |b.positions| ensures b.positions[i].id != b.positions[j].id {
      if j == |a.positions| {
        assert a.positions[i] in a.positions;
      }
    }
  }
}
