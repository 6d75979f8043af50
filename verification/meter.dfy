/** `AverageMeter`: the last value seen, a weighted running sum and count,
    and the running average `sum / count`. Values are modelled as reals.
 */
module Meters {
  import opened Outcomes

  datatype Meter = Meter(val: real, avg: real, sum: real, count: int)

  /** The meter as `reset` leaves it, and as the constructor builds it. */
  function Reset(): (r: Meter)
    ensures r.val == 0.0 && r.avg == 0.0 && r.sum == 0.0 && r.count == 0
    ensures Valid(r)
  {
    Meter(0.0, 0.0, 0.0, 0)
  }

  /** The average agrees with the sum and count whenever it is defined. */
  ghost predicate Consistent(m: Meter)
  {
    m.count != 0 ==> m.avg * (m.count as real) == m.sum
  }

  /** What every meter that only ever receives unit-weight updates keeps:
      a non-negative count and a consistent average. */
  ghost predicate Valid(m: Meter)
  {
    m.count >= 0 && Consistent(m)
  }

  /** `update(val, n)`: record the value, add `val * n` to the sum and `n`
      to the count, then divide. When the new count is zero the division
      raises, after the value, sum and count have already been written. */
  function Update(m: Meter, v: real, n: int): (r: Outcome<Meter, ()>)
    ensures r.state.val == v
    ensures r.state.sum == m.sum + v * (n as real)
    ensures r.state.count == m.count + n
    ensures r.Succeeded() <==> m.count + n != 0
    ensures r.Succeeded() ==> r.state.avg * (r.state.count as real) == r.state.sum
    ensures !r.Succeeded() ==> r.result == Raised(ZeroDivisionError) && r.state.avg == m.avg
  {
    var sum := m.sum + v * (n as real);
    var count := m.count + n;
    if count == 0 then
      Outcome(m.(val := v, sum := sum, count := count), Raised(ZeroDivisionError))
    else
      Outcome(Meter(v, sum / (count as real), sum, count), Ok(()))
  }

  /** Every update, raising or not, leaves a consistent meter behind. */
  lemma UpdateKeepsConsistent(m: Meter, v: real, n: int)
    ensures Consistent(Update(m, v, n).state)
  {
  }

  /** `update(val)` with the default weight 1; it cannot raise on a meter
      with a non-negative count. */
  function Add(m: Meter, v: real): (r: Meter)
    requires Valid(m)
    ensures Valid(r)
    ensures Update(m, v, 1) == Outcome(r, Ok(()))
  {
    Update(m, v, 1).state
  }

  /** On a meter with samples the average is the sum over the count. */
  lemma AvgIsQuotient(m: Meter)
    requires Consistent(m) && m.count != 0
    ensures m.avg == m.sum / (m.count as real)
  {
  }

  /** The sum of a sequence of reals. */
  function Sum(vs: seq<real>): real
    decreases |vs|
  {
    if |vs| == 0 then 0.0 else Sum(vs[..|vs| - 1]) + vs[|vs| - 1]
  }

  /** The meter after unit-weight updates with each of `vs`, in order. */
  function Feed(m: Meter, vs: seq<real>): (r: Meter)
    requires Valid(m)
    ensures Valid(r)
    decreases |vs|
  {
    if |vs| == 0 then m else Add(Feed(m, vs[..|vs| - 1]), vs[|vs| - 1])
  }

  /** Unit updates add their values to the sum and one each to the count. */
  lemma {:induction false} FeedTotals(m: Meter, vs: seq<real>)
    requires Valid(m)
    ensures Feed(m, vs).count == m.count + |vs|
    ensures Feed(m, vs).sum == m.sum + Sum(vs)
    ensures |vs| > 0 ==> Feed(m, vs).val == vs[|vs| - 1]
    decreases |vs|
  {
    if |vs| > 0 {
      FeedTotals(m, vs[..|vs| - 1]);
    }
  }

  /** After a reset and k >= 1 unit updates with values v1..vk, the count is
      k and the average is the arithmetic mean (v1 + ... + vk) / k. */
  lemma FeedFromResetIsMean(vs: seq<real>)
    requires |vs| > 0
    ensures Feed(Reset(), vs).count == |vs|
    ensures Feed(Reset(), vs).avg == Sum(vs) / (|vs| as real)
    ensures Feed(Reset(), vs).val == vs[|vs| - 1]
  {
    FeedTotals(Reset(), vs);
    AvgIsQuotient(Feed(Reset(), vs));
  }
}
