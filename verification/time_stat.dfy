/** `TimeStat`: per-epoch wall-clock accounting split into a data-loading,
    a forward and a visualisation phase. Every clock reading the source takes
    with `time.time()` is a `now` parameter here.
 */
module TimeStats {
  import opened Outcomes
  import opened Meters

  /** The attributes `epoch_init` assigns. `forwardStart` and
      `visualizeStart` hold -1 until the phase that sets them has run. */
  datatype EpochClock = EpochClock(
    dataEpoch: real,
    forwardEpoch: real,
    visualizeEpoch: real,
    startTime: real,
    epochStartTime: real,
    forwardStart: real,
    visualizeStart: real,
    epoch: int)

  /** `clock` is unset until the first `epoch_init`; `epochTime` until the
      first `stat_epoch_time`, and it is not cleared by `epoch_init`. */
  datatype TimeStat = TimeStat(
    dataTime: Meter,
    forwardTime: Meter,
    visualizeTime: Meter,
    totalTime: Meter,
    totalEpoch: int,
    clock: Option<EpochClock>,
    epochTime: Option<real>)

  ghost predicate Valid(ts: TimeStat)
  {
    Meters.Valid(ts.dataTime) && Meters.Valid(ts.forwardTime)
    && Meters.Valid(ts.visualizeTime) && Meters.Valid(ts.totalTime)
  }

  /** The constructor; `total_epoch` defaults to 100 in the source. */
  function Init(totalEpoch: int): (ts: TimeStat)
    ensures Valid(ts)
    ensures ts.dataTime == Reset() && ts.forwardTime == Reset()
    ensures ts.visualizeTime == Reset() && ts.totalTime == Reset()
    ensures ts.totalEpoch == totalEpoch
    ensures ts.clock.None? && ts.epochTime.None?
  {
    TimeStat(Reset(), Reset(), Reset(), Reset(), totalEpoch, None, None)
  }

  /** The sum of the three per-epoch accumulators. */
  function Accumulated(c: EpochClock): real
  {
    c.dataEpoch + c.forwardEpoch + c.visualizeEpoch
  }

  /** `epoch_init(epoch)`, reading the clock twice: `now1` becomes the first
      segment start and `now2` the epoch start. */
  function EpochInit(ts: TimeStat, epoch: int, now1: real, now2: real): (r: TimeStat)
    ensures r.clock.Some?
    ensures r.clock.value.dataEpoch == 0.0 && r.clock.value.forwardEpoch == 0.0
    ensures r.clock.value.visualizeEpoch == 0.0
    ensures r.clock.value.forwardStart == -1.0 && r.clock.value.visualizeStart == -1.0
    ensures r.clock.value.startTime == now1 && r.clock.value.epochStartTime == now2
    ensures r.clock.value.epoch == epoch
    ensures r.(clock := ts.clock) == ts
  {
    ts.(clock := Some(EpochClock(0.0, 0.0, 0.0, now1, now2, -1.0, -1.0, epoch)))
  }

  /** `stat_data_time()`: the data phase ends and the forward phase starts. */
  function StatData(ts: TimeStat, now: real): (r: Outcome<TimeStat, ()>)
    ensures r.Succeeded() <==> ts.clock.Some?
    ensures !r.Succeeded() ==> r == Outcome(ts, Raised(AttributeError))
    ensures r.Succeeded() ==>
      var c := ts.clock.value;
      && r.state.clock.Some?
      && r.state.clock.value.dataEpoch == c.dataEpoch + (now - c.startTime)
      && r.state.clock.value.forwardStart == now
      && r.state == ts.(clock := Some(c.(dataEpoch := r.state.clock.value.dataEpoch, forwardStart := now)))
  {
    match ts.clock
    case None => Outcome(ts, Raised(AttributeError))
    case Some(c) =>
      Outcome(ts.(clock := Some(c.(forwardStart := now, dataEpoch := c.dataEpoch + (now - c.startTime)))), Ok(()))
  }

  /** `stat_forward_time()`: the forward phase ends and visualisation starts. */
  function StatForward(ts: TimeStat, now: real): (r: Outcome<TimeStat, ()>)
    ensures r.Succeeded() <==> ts.clock.Some?
    ensures !r.Succeeded() ==> r == Outcome(ts, Raised(AttributeError))
    ensures r.Succeeded() ==>
      var c := ts.clock.value;
      && r.state.clock.Some?
      && r.state.clock.value.forwardEpoch == c.forwardEpoch + (now - c.forwardStart)
      && r.state.clock.value.visualizeStart == now
      && r.state == ts.(clock := Some(c.(forwardEpoch := r.state.clock.value.forwardEpoch, visualizeStart := now)))
  {
    match ts.clock
    case None => Outcome(ts, Raised(AttributeError))
    case Some(c) =>
      Outcome(ts.(clock := Some(c.(visualizeStart := now, forwardEpoch := c.forwardEpoch + (now - c.forwardStart)))), Ok(()))
  }

  /** `stat_visualize_time()`: visualisation ends and the next data phase
      starts. */
  function StatVisualize(ts: TimeStat, now: real): (r: Outcome<TimeStat, ()>)
    ensures r.Succeeded() <==> ts.clock.Some?
    ensures !r.Succeeded() ==> r == Outcome(ts, Raised(AttributeError))
    ensures r.Succeeded() ==>
      var c := ts.clock.value;
      && r.state.clock.Some?
      && r.state.clock.value.visualizeEpoch == c.visualizeEpoch + (now - c.visualizeStart)
      && r.state.clock.value.startTime == now
      && r.state == ts.(clock := Some(c.(visualizeEpoch := r.state.clock.value.visualizeEpoch, startTime := now)))
  {
    match ts.clock
    case None => Outcome(ts, Raised(AttributeError))
    case Some(c) =>
      Outcome(ts.(clock := Some(c.(startTime := now, visualizeEpoch := c.visualizeEpoch + (now - c.visualizeStart)))), Ok(()))
  }

  /** `stat_epoch_time()`: the epoch's wall-clock duration. */
  function StatEpochTime(ts: TimeStat, now: real): (r: Outcome<TimeStat, ()>)
    ensures r.Succeeded() <==> ts.clock.Some?
    ensures !r.Succeeded() ==> r == Outcome(ts, Raised(AttributeError))
    ensures r.Succeeded() ==> r.state == ts.(epochTime := Some(now - ts.clock.value.epochStartTime))
  {
    match ts.clock
    case None => Outcome(ts, Raised(AttributeError))
    case Some(c) => Outcome(ts.(epochTime := Some(now - c.epochStartTime)), Ok(()))
  }

  /** The readings of one data, forward, visualise cycle. */
  datatype Cycle = Cycle(dataDone: real, forwardDone: real, visualizeDone: real)

  /** One full cycle of the three phase boundaries. */
  function RunCycle(ts: TimeStat, cy: Cycle): Outcome<TimeStat, ()>
  {
    var a := StatData(ts, cy.dataDone);
    if !a.Succeeded() then a
    else
      var b := StatForward(a.state, cy.forwardDone);
      if !b.Succeeded() then b
      else StatVisualize(b.state, cy.visualizeDone)
  }

  /** Complete cycles, in order. */
  function RunCycles(ts: TimeStat, cycles: seq<Cycle>): Outcome<TimeStat, ()>
    decreases |cycles|
  {
    if |cycles| == 0 then Outcome(ts, Ok(()))
    else
      var r := RunCycles(ts, cycles[..|cycles| - 1]);
      if r.Succeeded() then RunCycle(r.state, cycles[|cycles| - 1]) else r
  }

  /** In one cycle each phase is charged the time between its own two
      boundaries; so the segment start moves to the cycle's last reading and
      the accumulators grow by exactly the time elapsed since the previous
      segment start, whatever the readings are. */
  lemma CycleTelescopes(ts: TimeStat, cy: Cycle)
    requires ts.clock.Some?
    ensures var r := RunCycle(ts, cy); var c := ts.clock.value;
      && r.Succeeded() && r.state.clock.Some?
      && r.state.clock.value.dataEpoch == c.dataEpoch + (cy.dataDone - c.startTime)
      && r.state.clock.value.forwardEpoch == c.forwardEpoch + (cy.forwardDone - cy.dataDone)
      && r.state.clock.value.visualizeEpoch == c.visualizeEpoch + (cy.visualizeDone - cy.forwardDone)
      && r.state.clock.value.startTime == cy.visualizeDone
      && Accumulated(r.state.clock.value) == Accumulated(ts.clock.value) + (cy.visualizeDone - ts.clock.value.startTime)
      && r.state.clock.value.epochStartTime == ts.clock.value.epochStartTime
      && r.state.(clock := ts.clock) == ts
  {
  }

  /** Over any number of complete cycles, the accumulators grow by exactly
      the time from the first segment start to the latest reading. */
  lemma {:induction false} CyclesTelescope(ts: TimeStat, cycles: seq<Cycle>)
    requires ts.clock.Some?
    ensures var r := RunCycles(ts, cycles);
      && r.Succeeded() && r.state.clock.Some?
      && Accumulated(r.state.clock.value) - r.state.clock.value.startTime
         == Accumulated(ts.clock.value) - ts.clock.value.startTime
      && (|cycles| > 0 ==> r.state.clock.value.startTime == cycles[|cycles| - 1].visualizeDone)
      && r.state.clock.value.epochStartTime == ts.clock.value.epochStartTime
      && r.state.(clock := ts.clock) == ts
    decreases |cycles|
  {
    if |cycles| > 0 {
      CyclesTelescope(ts, cycles[..|cycles| - 1]);
      CycleTelescopes(RunCycles(ts, cycles[..|cycles| - 1]).state, cycles[|cycles| - 1]);
    }
  }

  /** Starting an epoch at reading `t0` and running m >= 1 complete cycles
      that end at reading `tm`, the three accumulators sum to `tm - t0`; a
      `stat_epoch_time` at reading `tEnd` then measures that sum plus the
      gap to `tEnd` and the gap between the two initial readings. */
  lemma EpochAccounting(ts: TimeStat, epoch: int, t0: real, t0': real, cycles: seq<Cycle>, tEnd: real)
    requires |cycles| > 0
    ensures var r := RunCycles(EpochInit(ts, epoch, t0, t0'), cycles);
      var tm := cycles[|cycles| - 1].visualizeDone;
      && r.Succeeded()
      && Accumulated(r.state.clock.value) == tm - t0
      && StatEpochTime(r.state, tEnd).state.epochTime
         == Some(Accumulated(r.state.clock.value) + (tEnd - tm) + (t0 - t0'))
  {
    CyclesTelescope(EpochInit(ts, epoch, t0, t0'), cycles);
  }

  /** In the first cycle of an epoch each phase accumulator holds exactly
      the time between that phase's own two boundaries. */
  lemma FirstCyclePerPhase(ts: TimeStat, epoch: int, t0: real, t0': real, cy: Cycle)
    ensures var r := RunCycle(EpochInit(ts, epoch, t0, t0'), cy);
      && r.Succeeded() && r.state.clock.Some?
      && r.state.clock.value.dataEpoch == cy.dataDone - t0
      && r.state.clock.value.forwardEpoch == cy.forwardDone - cy.dataDone
      && r.state.clock.value.visualizeEpoch == cy.visualizeDone - cy.forwardDone
  {
    CycleTelescopes(EpochInit(ts, epoch, t0, t0'), cy);
  }

  /** The summary line printed by `print_stat`. */
  datatype Summary = Summary(epoch: int, totalEpoch: int, dataAvg: real, forwardAvg: real,
                             visualizeAvg: real, epochTime: real)

  /** `print_stat()`: fold this epoch's accumulators into the running
      meters, then print the averages and the epoch duration. The fold
      happens before the epoch duration is read, so it sticks even when
      `stat_epoch_time` never ran. */
  function PrintStat(ts: TimeStat): (r: Outcome<TimeStat, Summary>)
    requires Valid(ts)
    ensures Valid(r.state)
    ensures ts.clock.None? ==> r == Outcome(ts, Raised(AttributeError))
    ensures ts.clock.Some? ==>
      var c := ts.clock.value;
      && r.state == ts.(dataTime := Add(ts.dataTime, c.dataEpoch),
                        forwardTime := Add(ts.forwardTime, c.forwardEpoch),
                        visualizeTime := Add(ts.visualizeTime, c.visualizeEpoch))
      && (r.Succeeded() <==> ts.epochTime.Some?)
      && (!r.Succeeded() ==> r.result.error == AttributeError)
      && (r.Succeeded() ==> r.result.value == Summary(c.epoch, ts.totalEpoch,
            r.state.dataTime.avg, r.state.forwardTime.avg, r.state.visualizeTime.avg,
            ts.epochTime.value))
  {
    match ts.clock
    case None => Outcome(ts, Raised(AttributeError))
    case Some(c) =>
      var folded := ts.(dataTime := Add(ts.dataTime, c.dataEpoch),
                        forwardTime := Add(ts.forwardTime, c.forwardEpoch),
                        visualizeTime := Add(ts.visualizeTime, c.visualizeEpoch));
      match ts.epochTime
      case None => Outcome(folded, Raised(AttributeError))
      case Some(e) =>
        Outcome(folded, Ok(Summary(c.epoch, ts.totalEpoch, folded.dataTime.avg,
                                   folded.forwardTime.avg, folded.visualizeTime.avg, e)))
  }

  /** Each call folds each accumulator in exactly once: the three phase
      meters gain one sample each, the accumulated amounts are added to
      their sums, and the total-time meter is never touched. */
  lemma PrintStatFoldsOnce(ts: TimeStat)
    requires Valid(ts) && ts.clock.Some?
    ensures var s := PrintStat(ts).state; var c := ts.clock.value;
      && s.dataTime.count == ts.dataTime.count + 1
      && s.forwardTime.count == ts.forwardTime.count + 1
      && s.visualizeTime.count == ts.visualizeTime.count + 1
      && s.dataTime.sum == ts.dataTime.sum + c.dataEpoch
      && s.forwardTime.sum == ts.forwardTime.sum + c.forwardEpoch
      && s.visualizeTime.sum == ts.visualizeTime.sum + c.visualizeEpoch
      && s.totalTime == ts.totalTime
      && s.clock == ts.clock
  {
  }
}
