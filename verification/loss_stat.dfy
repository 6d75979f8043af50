/** `LossStat`: running averages of the training losses. Two meters are
    required on every update; three are optional, and each optional meter
    switches on its report section the first time its loss is supplied.
 */
module LossStats {
  import opened Outcomes
  import opened Meters

  const TotalLossKey := "total_loss"
  const KpLossKey := "kp_loss"
  const DpAlignKey := "dp_align_loss"
  const SmplJointsKey := "smpl_joints_loss"
  const SmplParamsKey := "smpl_params_loss"

  /** The loss dictionary handed to `update`. */
  type Errors = map<string, real>

  /** `joints3d` is constructed but no operation ever updates or reports it.
      `epoch` is unset until `set_epoch`. */
  datatype LossStat = LossStat(
    total: Meter,
    joints2d: Meter,
    dpAlign: Meter,
    joints3d: Meter,
    smplJoints: Meter,
    smplParams: Meter,
    numData: int,
    hasDp: bool,
    hasSmplJoints: bool,
    hasSmplParams: bool,
    epoch: Option<int>)

  ghost predicate Valid(ls: LossStat)
  {
    Meters.Valid(ls.total) && Meters.Valid(ls.joints2d) && Meters.Valid(ls.dpAlign)
    && Meters.Valid(ls.joints3d) && Meters.Valid(ls.smplJoints) && Meters.Valid(ls.smplParams)
  }

  /** The constructor: six fresh meters, no optional section switched on. */
  function Init(numData: int): (ls: LossStat)
    ensures Valid(ls)
    ensures ls.total == Reset() && ls.joints2d == Reset() && ls.dpAlign == Reset()
    ensures ls.joints3d == Reset() && ls.smplJoints == Reset() && ls.smplParams == Reset()
    ensures ls.numData == numData && ls.epoch.None?
    ensures !ls.hasDp && !ls.hasSmplJoints && !ls.hasSmplParams
  {
    LossStat(Reset(), Reset(), Reset(), Reset(), Reset(), Reset(), numData, false, false, false, None)
  }

  function SetEpoch(ls: LossStat, epoch: int): LossStat
  {
    ls.(epoch := Some(epoch))
  }

  /** Update an optional meter when its key is present, and report whether
      it was. */
  function UpdateOptional(m: Meter, errors: Errors, k: string): (r: (Meter, bool))
    requires Meters.Valid(m)
    ensures Meters.Valid(r.0)
    ensures r.1 <==> k in errors
    ensures r.1 ==> r.0 == Add(m, errors[k])
    ensures !r.1 ==> r.0 == m
  {
    if k in errors then (Add(m, errors[k]), true) else (m, false)
  }

  /** `update(errors)`. A missing `total_loss` raises before anything
      changes; a missing `kp_loss` raises after the total has been updated. */
  function Update(ls: LossStat, errors: Errors): (r: Outcome<LossStat, ()>)
    requires Valid(ls)
    ensures Valid(r.state)
  {
    if TotalLossKey !in errors then Outcome(ls, Raised(KeyError))
    else
      var total := Add(ls.total, errors[TotalLossKey]);
      if KpLossKey !in errors then Outcome(ls.(total := total), Raised(KeyError))
      else
        var joints2d := Add(ls.joints2d, errors[KpLossKey]);
        var (dp, seenDp) := UpdateOptional(ls.dpAlign, errors, DpAlignKey);
        var (sj, seenSj) := UpdateOptional(ls.smplJoints, errors, SmplJointsKey);
        var (sp, seenSp) := UpdateOptional(ls.smplParams, errors, SmplParamsKey);
        Outcome(
          ls.(total := total, joints2d := joints2d,
              dpAlign := dp, smplJoints := sj, smplParams := sp,
              hasDp := ls.hasDp || seenDp,
              hasSmplJoints := ls.hasSmplJoints || seenSj,
              hasSmplParams := ls.hasSmplParams || seenSp),
          Ok(()))
  }

  /** The required meters are updated on every successful call, which needs
      both required keys; the unused 3D-joints meter, the data count and the
      epoch never change. */
  lemma UpdateRequired(ls: LossStat, errors: Errors)
    requires Valid(ls)
    ensures var r := Update(ls, errors);
      && (r.Succeeded() <==> TotalLossKey in errors && KpLossKey in errors)
      && (r.Succeeded() ==>
            r.state.total == Add(ls.total, errors[TotalLossKey])
            && r.state.joints2d == Add(ls.joints2d, errors[KpLossKey]))
      && (!r.Succeeded() ==> r.result == Raised(KeyError) && r.state.joints2d == ls.joints2d)
      && (TotalLossKey !in errors ==> r.state == ls)
      && (TotalLossKey in errors && KpLossKey !in errors ==>
            r.state == ls.(total := Add(ls.total, errors[TotalLossKey])))
      && r.state.joints3d == ls.joints3d
      && r.state.numData == ls.numData
      && r.state.epoch == ls.epoch
  {
  }

  /** On a successful call each optional meter is updated exactly when its
      key is present, and its flag becomes true then and never reverts. */
  lemma UpdateOptionalMeters(ls: LossStat, errors: Errors)
    requires Valid(ls)
    requires TotalLossKey in errors && KpLossKey in errors
    ensures var s := Update(ls, errors).state;
      && (DpAlignKey in errors ==> s.dpAlign == Add(ls.dpAlign, errors[DpAlignKey]))
      && (DpAlignKey !in errors ==> s.dpAlign == ls.dpAlign)
      && (SmplJointsKey in errors ==> s.smplJoints == Add(ls.smplJoints, errors[SmplJointsKey]))
      && (SmplJointsKey !in errors ==> s.smplJoints == ls.smplJoints)
      && (SmplParamsKey in errors ==> s.smplParams == Add(ls.smplParams, errors[SmplParamsKey]))
      && (SmplParamsKey !in errors ==> s.smplParams == ls.smplParams)
      && (s.hasDp <==> ls.hasDp || DpAlignKey in errors)
      && (s.hasSmplJoints <==> ls.hasSmplJoints || SmplJointsKey in errors)
      && (s.hasSmplParams <==> ls.hasSmplParams || SmplParamsKey in errors)
  {
  }

  /** Flags never revert, whether or not the call raised. */
  lemma FlagsSticky(ls: LossStat, errors: Errors)
    requires Valid(ls)
    ensures var s := Update(ls, errors).state;
      (ls.hasDp ==> s.hasDp) && (ls.hasSmplJoints ==> s.hasSmplJoints)
      && (ls.hasSmplParams ==> s.hasSmplParams)
  {
  }

  /** A run of updates, stopping at the first that raises. */
  function UpdateAll(ls: LossStat, batches: seq<Errors>): (r: Outcome<LossStat, ()>)
    requires Valid(ls)
    ensures Valid(r.state)
    decreases |batches|
  {
    if |batches| == 0 then Outcome(ls, Ok(()))
    else
      var r := UpdateAll(ls, batches[..|batches| - 1]);
      if r.Succeeded() then Update(r.state, batches[|batches| - 1]) else r
  }

  /** How many of the dictionaries carry key `k`. */
  function CountWith(batches: seq<Errors>, k: string): nat
    decreases |batches|
  {
    if |batches| == 0 then 0
    else CountWith(batches[..|batches| - 1], k) + (if k in batches[|batches| - 1] then 1 else 0)
  }

  /** The sum of the `k` losses over the dictionaries that carry one. */
  function SumWith(batches: seq<Errors>, k: string): real
    decreases |batches|
  {
    if |batches| == 0 then 0.0
    else SumWith(batches[..|batches| - 1], k) + (if k in batches[|batches| - 1] then batches[|batches| - 1][k] else 0.0)
  }

  /** Every dictionary carries both required losses. */
  ghost predicate AllComplete(batches: seq<Errors>)
  {
    forall i :: 0 <= i < |batches| ==> TotalLossKey in batches[i] && KpLossKey in batches[i]
  }

  /** Over a run of complete updates the required meters count every
      update, each optional meter counts and sums exactly the updates that
      supplied it (so its average covers only those), and its section is
      switched on exactly when some update did. */
  lemma {:induction false} UpdateAllCounts(ls: LossStat, batches: seq<Errors>)
    requires Valid(ls)
    requires AllComplete(batches)
    ensures var r := UpdateAll(ls, batches);
      && r.Succeeded()
      && r.state.total.count == ls.total.count + |batches|
      && r.state.joints2d.count == ls.joints2d.count + |batches|
      && r.state.dpAlign.count == ls.dpAlign.count + CountWith(batches, DpAlignKey)
      && r.state.smplJoints.count == ls.smplJoints.count + CountWith(batches, SmplJointsKey)
      && r.state.smplParams.count == ls.smplParams.count + CountWith(batches, SmplParamsKey)
      && r.state.total.sum == ls.total.sum + SumWith(batches, TotalLossKey)
      && r.state.joints2d.sum == ls.joints2d.sum + SumWith(batches, KpLossKey)
      && r.state.dpAlign.sum == ls.dpAlign.sum + SumWith(batches, DpAlignKey)
      && r.state.smplJoints.sum == ls.smplJoints.sum + SumWith(batches, SmplJointsKey)
      && r.state.smplParams.sum == ls.smplParams.sum + SumWith(batches, SmplParamsKey)
      && (r.state.hasDp <==> ls.hasDp || CountWith(batches, DpAlignKey) > 0)
      && (r.state.hasSmplJoints <==> ls.hasSmplJoints || CountWith(batches, SmplJointsKey) > 0)
      && (r.state.hasSmplParams <==> ls.hasSmplParams || CountWith(batches, SmplParamsKey) > 0)
    decreases |batches|
  {
    if |batches| > 0 {
      var init := batches[..|batches| - 1];
      assert AllComplete(init) by {
        forall i | 0 <= i < |init| ensures TotalLossKey in init[i] && KpLossKey in init[i] {
          assert init[i] == batches[i];
        }
      }
      UpdateAllCounts(ls, init);
      UpdateRequired(UpdateAll(ls, init).state, batches[|batches| - 1]);
      UpdateOptionalMeters(UpdateAll(ls, init).state, batches[|batches| - 1]);
    }
  }

  /** From a fresh `LossStat`, after N >= 1 complete updates the required
      averages are the arithmetic means of the N supplied values. */
  lemma RequiredAveragesAreMeans(numData: int, batches: seq<Errors>)
    requires |batches| > 0 && AllComplete(batches)
    ensures var s := UpdateAll(Init(numData), batches).state;
      && s.total.avg == SumWith(batches, TotalLossKey) / (|batches| as real)
      && s.joints2d.avg == SumWith(batches, KpLossKey) / (|batches| as real)
  {
    var ls := Init(numData);
    UpdateAllCounts(ls, batches);
    var s := UpdateAll(ls, batches).state;
    assert ls.total == Reset() && ls.joints2d == Reset();
    assert s.total.count == |batches| && s.joints2d.count == |batches|;
    assert s.total.sum == SumWith(batches, TotalLossKey);
    assert s.joints2d.sum == SumWith(batches, KpLossKey);
    AvgIsQuotient(s.total);
    AvgIsQuotient(s.joints2d);
  }

  /** One report section; each carries the meter it prints. */
  datatype Section =
    | BaseSection(total: Meter, joints2d: Meter)
    | DpAlignSection(dpAlign: Meter)
    | SmplJointsSection(smplJoints: Meter)
    | SmplParamsSection(smplParams: Meter)

  /** The position of a section kind in the fixed report order. */
  function Rank(s: Section): nat
  {
    match s
    case BaseSection(_, _) => 0
    case DpAlignSection(_) => 1
    case SmplJointsSection(_) => 2
    case SmplParamsSection(_) => 3
  }

  /** The report printed by `print_loss`: every section is headed by the
      epoch, the iteration and the data count. */
  datatype Report = Report(epoch: int, iter: int, numData: int, sections: seq<Section>)

  /** `print_loss(epoch_iter)`; it needs `set_epoch` to have run. */
  function PrintLoss(ls: LossStat, iter: int): (r: Result<Report>)
    ensures r.Raised? <==> ls.epoch.None?
    ensures r.Raised? ==> r.error == AttributeError
  {
    if ls.epoch.None? then Raised(AttributeError)
    else
      Ok(Report(ls.epoch.value, iter, ls.numData,
        [BaseSection(ls.total, ls.joints2d)]
        + (if ls.hasDp then [DpAlignSection(ls.dpAlign)] else [])
        + (if ls.hasSmplJoints then [SmplJointsSection(ls.smplJoints)] else [])
        + (if ls.hasSmplParams then [SmplParamsSection(ls.smplParams)] else [])))
  }

  /** The report always opens with the base section, lists sections in the
      fixed order, includes each optional section exactly when its flag is
      set, and shows each section's own meter. */
  lemma ReportSections(ls: LossStat, iter: int)
    requires ls.epoch.Some?
    ensures var ss := PrintLoss(ls, iter).value.sections;
      && |ss| >= 1
      && ss[0] == BaseSection(ls.total, ls.joints2d)
      && (forall i, j :: 0 <= i < j < |ss| ==> Rank(ss[i]) < Rank(ss[j]))
      && (DpAlignSection(ls.dpAlign) in ss <==> ls.hasDp)
      && (SmplJointsSection(ls.smplJoints) in ss <==> ls.hasSmplJoints)
      && (SmplParamsSection(ls.smplParams) in ss <==> ls.hasSmplParams)
      && (forall i :: 0 <= i < |ss| ==>
            (ss[i] in {BaseSection(ls.total, ls.joints2d), DpAlignSection(ls.dpAlign),
                       SmplJointsSection(ls.smplJoints), SmplParamsSection(ls.smplParams)}))
      && |ss| == 1 + (if ls.hasDp then 1 else 0) + (if ls.hasSmplJoints then 1 else 0)
                   + (if ls.hasSmplParams then 1 else 0)
  {
  }
}
