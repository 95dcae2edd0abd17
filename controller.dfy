/** One tick of the controller, `iterate` in src/main.rs.

    The stored rows (`query_last_values`) are read once, as a snapshot, at the start of
    the tick. Then, for each channel of the node's fee map, in the map's iteration order:
    the stored row is looked up (panicking if there is none), the channel's revenue is
    fetched, `new_fee` is evaluated and its value thrown away, and the current fee and the
    revenue narrowed to `u32` are written back to the store. The store is modelled as a
    map from channel id to row; the node's revenue answer is the parameter `revenueOf`. */
module Controller {
  import opened Types
  import opened FeeRule

  /** A row of the store: the last fee, the last revenue, and when they were written. */
  datatype Row = Row(fee: uint32, revenue: uint32, lastUpdated: int)

  /** Why a tick stopped early: `unwrap` on a channel without a stored row, or a `u32`
      overflow inside `new_fee`. */
  datatype PanicCause = MissingRow | FeeOverflow

  datatype TickOutcome =
    | Finished
    | Panicked(index: nat, channel: ChannelId, cause: PanicCause)

  /** The value `iterate` computes for one channel. The call site passes
      `(last_fee, last_revenue, current_fee, current_revenue as u32)` to parameters named
      `(last_revenue, last_fee, current_revenue, current_fee)`, so the rule's outer test
      compares fees and its result is computed from revenues. */
  function ChannelDecision(row: Row, currentFee: uint32, currentRevenue: uint64): (r: Option<uint32>)
    // the outer comparison is on the fees, and the result is on the revenue's scale
    ensures r.Some? && currentFee >= row.fee ==> r.value >= TruncateU32(currentRevenue)
    ensures r.Some? && currentFee < row.fee ==> r.value <= TruncateU32(currentRevenue)
    // fee and revenue both rose: the revenue step is doubled, not the fee step
    ensures currentFee > row.fee && TruncateU32(currentRevenue) > row.revenue ==>
      r == CheckedU32(2 * TruncateU32(currentRevenue) - row.revenue)
  {
    NewFee(row.fee, row.revenue, currentFee, TruncateU32(currentRevenue))
  }

  /** The swap matters: fee raised from 100 to 200 while revenue fell from 1000 to 500.
      With the arguments in the order of the parameter names the rule lowers the fee
      half-way back, to 150; the call as written yields 750. */
  lemma SwappedArgumentsDiffer()
    ensures NewFee(1000, 100, 500, 200) == Some(150)
    ensures ChannelDecision(Row(100, 1000, 0), 200, 500) == Some(750)
  {
  }

  /** A channel whose fee was lowered while its narrowed revenue stayed the same and below
      10 makes the call panic: the rule sees "revenue" (the fees) fall and "fee" (the
      revenues) unchanged, and subtracts 10 from the revenue. An idle channel that earned
      0 in both ticks is such a case. */
  lemma LoweredFeeOnIdleChannelPanics(row: Row, currentFee: uint32, currentRevenue: uint64)
    requires currentFee < row.fee
    requires TruncateU32(currentRevenue) == row.revenue < 10
    ensures ChannelDecision(row, currentFee, currentRevenue).None?
  {
  }

  /** Whether channel `id` gets through its step of the tick without a panic. */
  predicate Proceeds(rows: map<ChannelId, Row>, fees: map<ChannelId, uint32>, revenueOf: ChannelId -> uint64, id: ChannelId)
    requires id in fees
  {
    id in rows && ChannelDecision(rows[id], fees[id], revenueOf(id)).Some?
  }

  /** The store after writing the current values of the channels `ids`, in order. */
  function Stored(store: map<ChannelId, Row>, ids: seq<ChannelId>, fees: map<ChannelId, uint32>,
                  revenueOf: ChannelId -> uint64, now: int): map<ChannelId, Row>
    requires forall k :: 0 <= k < |ids| ==> ids[k] in fees
  {
    if ids == [] then store
    else
      var id := ids[|ids| - 1];
      Stored(store, ids[..|ids| - 1], fees, revenueOf, now)[id := Row(fees[id], TruncateU32(revenueOf(id)), now)]
  }

  /** Every written channel holds its current fee and narrowed revenue, whatever `new_fee`
      said; every other row is left as it was. */
  lemma {:induction false} StoredRows(store: map<ChannelId, Row>, ids: seq<ChannelId>, fees: map<ChannelId, uint32>,
                                      revenueOf: ChannelId -> uint64, now: int, id: ChannelId)
    requires forall k :: 0 <= k < |ids| ==> ids[k] in fees
    ensures id in ids ==>
      id in Stored(store, ids, fees, revenueOf, now) &&
      Stored(store, ids, fees, revenueOf, now)[id] == Row(fees[id], TruncateU32(revenueOf(id)), now)
    ensures id !in ids ==>
      (id in Stored(store, ids, fees, revenueOf, now) <==> id in store) &&
      (id in store ==> Stored(store, ids, fees, revenueOf, now)[id] == store[id])
  {
    if ids != [] {
      var init := ids[..|ids| - 1];
      StoredRows(store, init, fees, revenueOf, now, id);
      assert ids == init + [ids[|ids| - 1]];
    }
  }

  /** One tick of `iterate` over the channels of `currentFees`, visited in `order` (the
      hash map's iteration order: each channel exactly once). Returns the store afterwards
      and whether the tick finished or panicked, and at which channel. */
  method Iterate(rows: map<ChannelId, Row>, currentFees: map<ChannelId, uint32>, order: seq<ChannelId>,
                 revenueOf: ChannelId -> uint64, now: int)
    returns (store: map<ChannelId, Row>, outcome: TickOutcome)
    requires forall k :: 0 <= k < |order| ==> order[k] in currentFees
    requires forall id :: id in currentFees ==> id in order
    requires forall j, k :: 0 <= j < k < |order| ==> order[j] != order[k]
    // the tick finishes exactly when every channel has a stored row and new_fee does not panic
    ensures outcome.Finished? <==> forall id :: id in currentFees ==> Proceeds(rows, currentFees, revenueOf, id)
    ensures outcome.Finished? ==> store == Stored(rows, order, currentFees, revenueOf, now)
    // a finished tick leaves every channel of the node with its current values ...
    ensures outcome.Finished? ==> currentFees.Keys <= rows.Keys && store.Keys == rows.Keys
    ensures outcome.Finished? ==> forall id :: id in currentFees ==>
      store[id] == Row(currentFees[id], TruncateU32(revenueOf(id)), now)
    // ... and every other row untouched
    ensures outcome.Finished? ==> forall id :: id in rows && id !in currentFees ==> store[id] == rows[id]
    // a panic stops at the first channel that fails, after the earlier ones were written
    ensures outcome.Panicked? ==>
      && outcome.index < |order|
      && outcome.channel == order[outcome.index]
      && store == Stored(rows, order[..outcome.index], currentFees, revenueOf, now)
      && (forall k :: 0 <= k < outcome.index ==> Proceeds(rows, currentFees, revenueOf, order[k]))
      && !Proceeds(rows, currentFees, revenueOf, outcome.channel)
      && (outcome.cause == MissingRow <==> outcome.channel !in rows)
  {
    store := rows;
    var i := 0;
    while i < |order|
      invariant 0 <= i <= |order|
      invariant store == Stored(rows, order[..i], currentFees, revenueOf, now)
      invariant forall k :: 0 <= k < i ==> Proceeds(rows, currentFees, revenueOf, order[k])
    {
      var id := order[i];
      if id !in rows {
        outcome := Panicked(i, id, MissingRow);
        return;
      }
      var row := rows[id];
      var currentFee := currentFees[id];
      var currentRevenue := revenueOf(id);
      var newFee := ChannelDecision(row, currentFee, currentRevenue);
      if newFee.None? {
        outcome := Panicked(i, id, FeeOverflow);
        return;
      }
      assert order[..i + 1][..i] == order[..i];
      store := store[id := Row(currentFee, TruncateU32(currentRevenue), now)];
      i := i + 1;
    }
    outcome := Finished;
    assert order[..i] == order;
    forall id | id in currentFees
      ensures Proceeds(rows, currentFees, revenueOf, id)
    {
      var k :| 0 <= k < |order| && order[k] == id;
    }
    forall id | id in rows || id in currentFees
      ensures id in store <==> id in rows
      ensures id in currentFees ==> store[id] == Row(currentFees[id], TruncateU32(revenueOf(id)), now)
      ensures id in rows && id !in currentFees ==> store[id] == rows[id]
    {
      StoredRows(rows, order, currentFees, revenueOf, now, id);
    }
    StoredKeys(rows, order, currentFees, revenueOf, now);
  }

  /** Writing never removes a row. */
  lemma {:induction false} StoredKeys(store: map<ChannelId, Row>, ids: seq<ChannelId>, fees: map<ChannelId, uint32>,
                                      revenueOf: ChannelId -> uint64, now: int)
    requires forall k :: 0 <= k < |ids| ==> ids[k] in fees
    ensures forall id :: id in Stored(store, ids, fees, revenueOf, now) ==> id in store || id in ids
  {
    if ids != [] {
      var init := ids[..|ids| - 1];
      StoredKeys(store, init, fees, revenueOf, now);
      forall id | id in Stored(store, ids, fees, revenueOf, now)
        ensures id in store || id in ids
      {
        if id != ids[|ids| - 1] {
          assert id in init ==> id in ids;
        }
      }
    }
  }
}
