# cln-feeder: fee rule and per-tick processing, in Dafny

cln-feeder is a controller for a Core Lightning node. On a timer it reads each channel's
proportional forwarding fee (ppm) and the revenue earned through that channel. It feeds
the last and the current values into a fee-update rule, then stores the current values
for the next tick. This project models the decision logic and the data processing
around it:

- `types.dfy` (`Types`): Rust's `u32`/`u64` as bounded integer subset types. It also gives
  checked `u32` arithmetic (an overflow is a panic, modelled as `None`) and the `as u32`
  narrowing cast.
- `fee_rule.dfy` (`FeeRule`): `new_fee`, the nine-branch rule. The rule looks at whether
  revenue rose, fell or stayed the same, and then at whether the fee did.
- `controller.dfy` (`Controller`): one tick of `iterate`. The store is a map from channel
  id to row, and a tick returns the new map plus an outcome: finished, or panicked at a
  given channel for a given reason.
- `rpc.rs` processing (`Rpc`, in `rpc.dfy`): three routines working on the node's answers,
  which are modelled as sequences of records:
  - `get_current_peers`: falls back to an empty peer list on any other answer.
  - `get_current_fees`: keeps only the `CHANNELD_NORMAL` channels of connected peers, and
    a later duplicate id overwrites an earlier one.
  - `get_revenue_since`: sums the fees of the forwards received strictly after a cutoff.

The loops in the source are modelled as methods with loop invariants. Each method is
proved against a recursive specification function:
- `GetCurrentFees` against `CurrentFees`
- `GetRevenueSince` against `RevenueAfter`
- `Iterate` against `Stored`

The properties the source implies are lemmas about those functions.

Behaviour modelled as the code has it:
- `iterate` passes `(last_fee, last_revenue, current_fee, current_revenue as u32)` to
  `new_fee`, whose parameters are `(last_revenue, last_fee, current_revenue, current_fee)`.
  The rule's outer test therefore compares fees, and its result is computed from revenues.
  `ChannelDecision` and `SwappedArgumentsDiffer` state this.
- The value `new_fee` returns is thrown away, but an overflow inside it still panics and
  ends the tick. The row stored is always the current fee and the current revenue,
  truncated modulo 2^32.
- The `unwrap` on the stored row is evaluated lazily inside the loop. A channel without
  a row therefore panics only when the loop reaches it, and the channels visited before
  it have already been written.
- Because of the swap, a channel whose fee was lowered while its narrowed revenue stayed
  the same and below 10 (an idle channel earning 0, say) reaches `current_fee - 10` with
  the revenue in place of the fee. That subtraction underflows, so the tick panics.
  `LoweredFeeOnIdleChannelPanics` states this.

## Model

| member | source | states |
|---|---|---|
| `FeeRule.NewFee` | src/main.rs:103-129 | The fee goes down only when revenue fell, and it does not go up when revenue fell. A fee that was left unchanged is always moved. `None` is the overflow panic. |
| `FeeRule.RevenueRose` | src/main.rs:104-111 | Revenue rose, three cases. Fee rose: `2*current-last`, above `current`, defined iff it fits in `u32`. Fee fell: `current+(last-current)/2`, within `[current, last]`. Fee unchanged: `current+10`, defined iff it fits. |
| `FeeRule.RevenueFell` | src/main.rs:112-119 | Revenue fell, three cases. Fee rose: `current-(current-last)/2`, within `[last, current]`. Fee fell: `2*current-last`, defined iff `last <= 2*current`. Fee unchanged: `current-10`, defined iff `current >= 10`. |
| `FeeRule.RevenueUnchanged` | src/main.rs:120-127 | Revenue unchanged, three cases. Fee rose: keep `current`. Fee fell: revert to `last`. Fee unchanged: `current+100`, defined iff it fits. |
| `FeeRule.PanicsExactlyOnOverflow` | src/main.rs:103-129 | `new_fee` panics exactly on the five overflow or underflow conditions collected in `Overflows`. |
| `Types.TruncateU32` | src/main.rs:95 | `as u32` keeps the value modulo 2^32. It leaves a value below 2^32 unchanged and strictly lowers any larger one. |
| `Controller.ChannelDecision` | src/main.rs:91-97 | With the arguments as `iterate` passes them, a fee that did not fall yields a result at least the narrowed current revenue. A fee that fell yields at most that revenue. When fee and revenue both rose, the result doubles the revenue step. |
| `Controller.SwappedArgumentsDiffer` | src/main.rs:91-96 | For fee 100→200 and revenue 1000→500, the rule with correctly named arguments gives 150, while the call as written gives 750. |
| `Controller.LoweredFeeOnIdleChannelPanics` | src/main.rs:91-96 | A fee lowered since the last tick, with a narrowed revenue equal to the stored one and below 10, makes the per-channel call panic: the swapped arguments reach `current_fee - 10` at src/main.rs:118 with that revenue. |
| `Controller.StoredRows` | src/main.rs:99 | After the writes, each written channel's row is (current fee, narrowed revenue, time), whatever `new_fee` returned. Every other row is unchanged. |
| `Controller.Iterate` | src/main.rs:80-102 | The tick finishes iff every channel has a stored row and `new_fee` does not overflow. A finished tick gives every channel its current values, leaves other rows alone and adds no key. A panic stops at the first failing channel, with the channels before it already written, and names the cause (missing row or overflow). |
| `Rpc.GetCurrentPeers` | src/rpc.rs:32-45 | A `ListPeers` answer yields its peers. Any other answer yields the empty list. |
| `Rpc.GetCurrentFees` | src/rpc.rs:46-62 | The nested loop with `continue` builds exactly `CurrentFees` of the peers of the answer. |
| `Rpc.QualifyingMembers` | src/rpc.rs:48-58 | A channel is visited for insertion iff it is in state `CHANNELD_NORMAL` and some connected peer has it. |
| `Rpc.CurrentFeesKeys` | src/rpc.rs:47-61 | The keys of the result are exactly the ids of the qualifying channels. |
| `Rpc.CurrentFeesFromQualifying` | src/rpc.rs:49-57 | Every entry is the ppm fee of a `CHANNELD_NORMAL` channel of a connected peer that has that id. |
| `Rpc.CurrentFeesLastWins` | src/rpc.rs:52-58 | When a qualifying channel's id does not occur again later, that id maps to that channel's fee. A later duplicate therefore overwrites an earlier one. |
| `Rpc.DisconnectedPeerIgnored` | src/rpc.rs:49-51 | Inserting a disconnected peer anywhere in the list leaves the result unchanged. |
| `Rpc.GetRevenueSince` | src/rpc.rs:14-30 | A `ListForwards` answer yields the sum of `fee_msat` over forwards received strictly after the cutoff. Any other answer yields 0. |
| `Rpc.RevenueAfterAppend` | src/rpc.rs:24-28 | The sum over a concatenation of forward lists is the sum of the two sums. |
| `Rpc.LaterForwardCounted` | src/rpc.rs:24-28 | Every forward received after the cutoff adds its whole fee. |
| `Rpc.RevenueZeroIff` | src/rpc.rs:24-28 | The sum is 0 iff every forward received after the cutoff has fee 0. A forward at exactly the cutoff is not counted. |
| `Rpc.RevenueAntitone` | src/rpc.rs:25 | A later cutoff never gives a larger sum. |
| `Rpc.AsWrittenCountsNothingYet` | src/rpc.rs:13 | With the cutoff as written (now plus the epoch length), no forward received up to now is counted, so the sum is 0. |
| `Rpc.AsWrittenMissesRecentForward` | src/rpc.rs:13 | A 1000 msat forward received ten minutes ago, with a one-hour epoch: the cutoff as written counts 0, the epoch start counts 1000. |
| `Rpc.EpochStartCountsEpochForwards` | src/rpc.rs:13 | With the cutoff set to the start of the epoch (now minus the epoch length), every forward of the epoch adds its fee, so any fee earned makes the sum positive. |

## Findings

| source | as written | input that shows it | evidently intended | confidence | as-written member | corrected member |
|---|---|---|---|---|---|---|
| src/rpc.rs:13 | cutoff = now **plus** `epoch_length` hours, which lies in the future | epoch length 1 h, now = 1000000, one forward at 999400.0 earning 1000 msat: the sum is 0 | cutoff = now **minus** `epoch_length` hours (start of the epoch): the sum is 1000 | not executed | `Rpc.AsWrittenMissesRecentForward` | `Rpc.EpochStartCountsEpochForwards` |

## Left out

- `main`, `Cli`, logger set-up and the sleep loop (src/main.rs:25-79): configuration and scheduling, with no decision logic.
- src/db.rs is not part of this model: the store is a map from channel id to row. Its SQL is malformed as written (`SET` for `VALUES`; `NOT EXIST`; two `PRIMARY KEY`s), so the real statements would fail. Failures of `query_last_values` and `store_current_values` (the `?` in `iterate`) are not modelled.
- `store_current_values` reads the wall clock for each channel. The model writes one time value `now` for the whole tick.
- `get_current_revenue`, which src/main.rs imports and calls, is not defined in src/rpc.rs (it defines `get_revenue_since(epoch_length, id, client)` instead). `Iterate` takes the per-channel revenue as the parameter `revenueOf`.
- `set_channel_fee` (src/rpc.rs:63-81): one RPC call and a log line. `iterate` never calls it (`// TODO set new fee`).
- The RPC calls themselves, their `.await`, and the `unwrap` on their transport results: the routines take the node's answer as a `Response` value.
- `unwrap` on `short_channel_id`, `fee_proportional_millionths` and `fee_msat`: the records carry these fields as present values, so the panic when one is absent is not modelled.
- `ShortChannelId::from_str(id).unwrap()` in `iterate`: the ids come from `to_string` of a parsed short channel id, and the model assumes they parse again.
- The `HashMap` iteration order in `iterate` is unspecified in Rust. `Iterate` takes it as the parameter `order`, listing each channel exactly once.
- The cutoff of `get_revenue_since` depends on `Utc::now()`. `GetRevenueSince` takes the cutoff as a parameter, and the two ways of computing it are given separately in `CutoffAsWritten` and `EpochStart`. `received_time` and the cutoff are `f64` in the source; the model uses `real`, so float rounding is not modelled.
- `Rpc.GetRevenueSince`: sums in unbounded integers. The source's `u64` accumulator would panic above 2^64 msat, which is more than the whole bitcoin supply.
- Release builds: `u32` arithmetic is modelled with the checked semantics of a debug build, where overflow panics. A release build would wrap modulo 2^32 instead.
