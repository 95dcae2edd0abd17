/** The fee-update rule `new_fee` of src/main.rs.

    The rule compares a last and a current revenue, then a last and a current fee, and
    yields one of nine closed-form values. Arithmetic is on `u32` with Rust's checked
    (debug-build) semantics: a result outside `0 .. 2^32 - 1` is a panic, modelled as `None`.
    Within each branch the inner difference is taken in the direction the guard makes
    non-negative, so only the outer addition or subtraction can leave the range. */
module FeeRule {
  import opened Types

  /** The value `new_fee(last_revenue, last_fee, current_revenue, current_fee)` returns,
      or `None` where it panics. Parameters keep the source's names and order. */
  function NewFee(lastRevenue: uint32, lastFee: uint32, currentRevenue: uint32, currentFee: uint32): (r: Option<uint32>)
    // the fee only goes down when revenue went down ...
    ensures r.Some? && currentRevenue >= lastRevenue ==> r.value >= currentFee
    // ... and only goes up when revenue did not go down
    ensures r.Some? && currentRevenue < lastRevenue ==> r.value <= currentFee
    // a fee that was left unchanged is always moved
    ensures r.Some? && currentFee == lastFee ==> r.value != currentFee
  {
    if currentRevenue > lastRevenue then
      if currentFee > lastFee then CheckedU32(currentFee + (currentFee - lastFee))
      else if currentFee < lastFee then CheckedU32(currentFee + (lastFee - currentFee) / 2)
      else CheckedU32(currentFee + 10)
    else if currentRevenue < lastRevenue then
      if currentFee > lastFee then CheckedU32(currentFee - (currentFee - lastFee) / 2)
      else if currentFee < lastFee then CheckedU32(currentFee - (lastFee - currentFee))
      else CheckedU32(currentFee - 10)
    else
      if currentFee > lastFee then Some(currentFee)
      else if currentFee < lastFee then Some(lastFee)
      else CheckedU32(currentFee + 100)
  }

  /** Revenue rose: a raised fee is raised again by the same step; a lowered fee moves
      half-way back up towards the last fee; an unchanged fee goes up by 10. */
  lemma RevenueRose(lastRevenue: uint32, lastFee: uint32, currentRevenue: uint32, currentFee: uint32)
    requires currentRevenue > lastRevenue
    ensures currentFee > lastFee ==>
      var step := currentFee + (currentFee - lastFee);
      (NewFee(lastRevenue, lastFee, currentRevenue, currentFee).Some? <==> step < U32_LIMIT) &&
      (step < U32_LIMIT ==> NewFee(lastRevenue, lastFee, currentRevenue, currentFee) == Some(step) && step > currentFee)
    ensures currentFee < lastFee ==>
      var r := NewFee(lastRevenue, lastFee, currentRevenue, currentFee);
      r == Some(currentFee + (lastFee - currentFee) / 2) && currentFee <= r.value <= lastFee
    ensures currentFee == lastFee ==>
      (NewFee(lastRevenue, lastFee, currentRevenue, currentFee).Some? <==> currentFee + 10 < U32_LIMIT) &&
      (currentFee + 10 < U32_LIMIT ==> NewFee(lastRevenue, lastFee, currentRevenue, currentFee) == Some(currentFee + 10))
  {
  }

  /** Revenue fell: a raised fee moves half-way back down towards the last fee; a lowered
      fee is lowered again by the same step, which underflows unless `last_fee <= 2 *
      current_fee`; an unchanged fee goes down by 10, which underflows below 10. */
  lemma RevenueFell(lastRevenue: uint32, lastFee: uint32, currentRevenue: uint32, currentFee: uint32)
    requires currentRevenue < lastRevenue
    ensures currentFee > lastFee ==>
      var r := NewFee(lastRevenue, lastFee, currentRevenue, currentFee);
      r == Some(currentFee - (currentFee - lastFee) / 2) && lastFee <= r.value <= currentFee
    ensures currentFee < lastFee ==>
      (NewFee(lastRevenue, lastFee, currentRevenue, currentFee).Some? <==> lastFee <= 2 * currentFee) &&
      (lastFee <= 2 * currentFee ==> NewFee(lastRevenue, lastFee, currentRevenue, currentFee) == Some(2 * currentFee - lastFee))
    ensures currentFee == lastFee ==>
      (NewFee(lastRevenue, lastFee, currentRevenue, currentFee).Some? <==> currentFee >= 10) &&
      (currentFee >= 10 ==> NewFee(lastRevenue, lastFee, currentRevenue, currentFee) == Some(currentFee - 10))
  {
  }

  /** Revenue unchanged: a raised fee is kept, a lowered fee is reverted to the last fee,
      and an unchanged fee goes up by 100. */
  lemma RevenueUnchanged(lastRevenue: uint32, lastFee: uint32, currentRevenue: uint32, currentFee: uint32)
    requires currentRevenue == lastRevenue
    ensures currentFee > lastFee ==> NewFee(lastRevenue, lastFee, currentRevenue, currentFee) == Some(currentFee)
    ensures currentFee < lastFee ==> NewFee(lastRevenue, lastFee, currentRevenue, currentFee) == Some(lastFee)
    ensures currentFee == lastFee ==>
      (NewFee(lastRevenue, lastFee, currentRevenue, currentFee).Some? <==> currentFee + 100 < U32_LIMIT) &&
      (currentFee + 100 < U32_LIMIT ==> NewFee(lastRevenue, lastFee, currentRevenue, currentFee) == Some(currentFee + 100))
  {
  }

  /** The exact inputs on which `new_fee` panics: the three additions that can pass
      `u32::MAX` and the two subtractions that can go below zero. */
  predicate Overflows(lastRevenue: uint32, lastFee: uint32, currentRevenue: uint32, currentFee: uint32)
  {
    || (currentRevenue > lastRevenue && currentFee > lastFee && 2 * currentFee - lastFee >= U32_LIMIT)
    || (currentRevenue > lastRevenue && currentFee == lastFee && currentFee + 10 >= U32_LIMIT)
    || (currentRevenue < lastRevenue && currentFee < lastFee && lastFee > 2 * currentFee)
    || (currentRevenue < lastRevenue && currentFee == lastFee && currentFee < 10)
    || (currentRevenue == lastRevenue && currentFee == lastFee && currentFee + 100 >= U32_LIMIT)
  }

  lemma PanicsExactlyOnOverflow(lastRevenue: uint32, lastFee: uint32, currentRevenue: uint32, currentFee: uint32)
    ensures NewFee(lastRevenue, lastFee, currentRevenue, currentFee).None? <==>
            Overflows(lastRevenue, lastFee, currentRevenue, currentFee)
  {
    if currentRevenue > lastRevenue {
      RevenueRose(lastRevenue, lastFee, currentRevenue, currentFee);
    } else if currentRevenue < lastRevenue {
      RevenueFell(lastRevenue, lastFee, currentRevenue, currentFee);
    } else {
      RevenueUnchanged(lastRevenue, lastFee, currentRevenue, currentFee);
    }
  }
}
