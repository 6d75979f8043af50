/** `Evaluator`: the store of per-image prediction records. Records are
    appended batch by batch, deduplicated by the image each one refers to,
    and saved or restored together with the sample list.

    The sample list holds opaque samples; the image key of a sample (its
    image path, `get_img_path` in the source) is the parameter `key`. The
    half-precision conversion applied to predicted vertices is the parameter
    `half`.
 */
module Evaluator {
  import opened Outcomes
  import opened Dedup

  /** A numeric array, element type left abstract as reals. */
  type Vector = seq<real>

  /** One prediction: the sample index it belongs to and the predicted
      camera, shape, pose and (converted) vertices. */
  datatype Record = Record(dataIdx: int, cam: Vector, shape: Vector, pose: Vector, verts: Vector)

  /** The `pred_results` dictionary of one batch: one entry per position. */
  datatype Batch = Batch(cams: seq<Vector>, shapeParams: seq<Vector>, poseParams: seq<Vector>, predVerts: seq<Vector>)

  /** `dataList` is unset when the evaluator was built without one and
      nothing has been loaded. */
  datatype Store<S> = Store(dataList: Option<seq<S>>, preds: seq<Record>)

  /** `Evaluator(data_list)`: the list is copied, no records yet. */
  function Init<S>(dataList: Option<seq<S>>): (s: Store<S>)
    ensures s.preds == [] && s.dataList == dataList
  {
    Store(dataList, [])
  }

  /** `clear()`: drop every record, keep the sample list. */
  function Clear<S>(s: Store<S>): (r: Store<S>)
    ensures r.preds == []
    ensures r.dataList == s.dataList
  {
    s.(preds := [])
  }

  /** How many leading batch positions have an entry in every field. */
  function Aligned(b: Batch): nat
  {
    var m1 := if |b.cams| <= |b.shapeParams| then |b.cams| else |b.shapeParams|;
    var m2 := if |b.poseParams| <= |b.predVerts| then |b.poseParams| else |b.predVerts|;
    if m1 <= m2 then m1 else m2
  }

  /** The record for batch position `i`. */
  function MakeRecord(dataIdx: int, b: Batch, i: nat, half: Vector -> Vector): Record
    requires i < Aligned(b)
  {
    Record(dataIdx, b.cams[i], b.shapeParams[i], b.poseParams[i], half(b.predVerts[i]))
  }

  /** `update(data_idxs, pred_results)`: append one record per index. The
      loop raises `IndexError` at the first position some field has no entry
      for, after the records of the earlier positions have been appended. */
  function Update<S>(s: Store<S>, idxs: seq<int>, b: Batch, half: Vector -> Vector): (r: Outcome<Store<S>, ()>)
    ensures r.state.dataList == s.dataList
    ensures |s.preds| <= |r.state.preds| && r.state.preds[..|s.preds|] == s.preds
    ensures r.Succeeded() <==> |idxs| <= Aligned(b)
    ensures r.Succeeded() ==> |r.state.preds| == |s.preds| + |idxs|
    ensures !r.Succeeded() ==> r.result == Raised(IndexError) && |r.state.preds| == |s.preds| + Aligned(b)
    ensures forall i :: |s.preds| <= i < |r.state.preds| ==>
      i - |s.preds| < |idxs| && i - |s.preds| < Aligned(b) &&
      r.state.preds[i] == MakeRecord(idxs[i - |s.preds|], b, i - |s.preds|, half)
  {
    var m := if |idxs| <= Aligned(b) then |idxs| else Aligned(b);
    var added := seq(m, i requires 0 <= i < m => MakeRecord(idxs[i], b, i, half));
    var preds := s.preds + added;
    assert preds[..|s.preds|] == s.preds;
    Outcome(s.(preds := preds), if m == |idxs| then Ok(()) else Raised(IndexError))
  }

  /** Python list indexing: `-n <= i < n` is accepted, negative indices count
      from the end. */
  predicate InRange(n: nat, i: int)
  {
    -(n as int) <= i < n
  }

  /** The position a Python index names: the one congruent to it modulo
      the length. */
  function Resolve(n: nat, i: int): (j: nat)
    requires InRange(n, i)
    ensures j < n
    ensures (j - i) % n == 0
  {
    if i < 0 then n + i else i
  }

  /** The image key of the sample a record index refers to. */
  function ImageKey<S, K>(dl: seq<S>, key: S -> K, idx: int): K
    requires InRange(|dl|, idx)
  {
    key(dl[Resolve(|dl|, idx)])
  }

  /** Every record's index is a valid index into the sample list. */
  predicate Resolvable<S>(dl: seq<S>, preds: seq<Record>)
  {
    forall i :: 0 <= i < |preds| ==> InRange(|dl|, preds[i].dataIdx)
  }

  /** The image key of a record, as a total function: `None` marks an index
      the sample list cannot resolve. */
  function RecordKey<S, K>(dl: seq<S>, key: S -> K): Record -> Option<K>
  {
    (r: Record) => if InRange(|dl|, r.dataIdx) then Some(ImageKey(dl, key, r.dataIdx)) else None
  }

  /** `remove_redunc()`: keep the first record per image key, in order, and
      report how many remain. Looking up the key of a record whose index is
      out of range raises `IndexError`, and with no sample list the first
      lookup raises `AttributeError`; either way nothing changes. */
  function RemoveRedunc<S, K(==)>(s: Store<S>, key: S -> K): (r: Outcome<Store<S>, nat>)
    ensures r.state.dataList == s.dataList
    ensures r.Succeeded() <==> |s.preds| == 0 || (s.dataList.Some? && Resolvable(s.dataList.value, s.preds))
    ensures !r.Succeeded() ==> r.state == s
    ensures !r.Succeeded() ==> r.result.error == (if s.dataList.None? then AttributeError else IndexError)
    ensures r.Succeeded() ==> r.result.value == |r.state.preds| <= |s.preds|
    ensures r.Succeeded() ==> forall i :: 0 <= i < |r.state.preds| ==> r.state.preds[i] in s.preds
  {
    if |s.preds| == 0 then Outcome(s, Ok(0))
    else if s.dataList.None? then Outcome(s, Raised(AttributeError))
    else if !Resolvable(s.dataList.value, s.preds) then Outcome(s, Raised(IndexError))
    else
      var u := Unique(s.preds, RecordKey(s.dataList.value, key));
      Outcome(s.(preds := u), Ok(|u|))
  }

  /** For a resolvable record, `RecordKey` is its image key. */
  lemma RecordKeyOfResolvable<S, K>(dl: seq<S>, key: S -> K, preds: seq<Record>, i: nat)
    requires Resolvable(dl, preds) && i < |preds|
    ensures RecordKey(dl, key)(preds[i]) == Some(ImageKey(dl, key, preds[i].dataIdx))
  {
  }

  /** The survivors of a successful `remove_redunc` are an order-preserving
      subsequence of the old records, so their indices still resolve. */
  lemma RemoveReduncIsSubseq<S, K>(s: Store<S>, key: S -> K)
    requires s.dataList.Some? && Resolvable(s.dataList.value, s.preds)
    ensures RemoveRedunc(s, key).Succeeded()
    ensures IsSubseq(RemoveRedunc(s, key).state.preds, s.preds)
    ensures Resolvable(s.dataList.value, RemoveRedunc(s, key).state.preds)
  {
    var dl := s.dataList.value;
    var u := RemoveRedunc(s, key).state.preds;
    if |s.preds| > 0 {
      UniqueIsSubseq(s.preds, RecordKey(dl, key));
    }
    forall i | 0 <= i < |u| ensures InRange(|dl|, u[i].dataIdx) {
      var j :| 0 <= j < |s.preds| && s.preds[j] == u[i];
    }
  }

  /** The survivors' image keys are pairwise distinct. */
  lemma RemoveReduncDistinct<S, K>(s: Store<S>, key: S -> K)
    requires s.dataList.Some? && Resolvable(s.dataList.value, s.preds)
    ensures var dl, u := s.dataList.value, RemoveRedunc(s, key).state.preds;
      && Resolvable(dl, u)
      && forall i, j :: 0 <= i < j < |u| ==> ImageKey(dl, key, u[i].dataIdx) != ImageKey(dl, key, u[j].dataIdx)
  {
    var dl := s.dataList.value;
    var u := RemoveRedunc(s, key).state.preds;
    RemoveReduncIsSubseq(s, key);
    forall i, j | 0 <= i < j < |u|
      ensures ImageKey(dl, key, u[i].dataIdx) != ImageKey(dl, key, u[j].dataIdx)
    {
      RecordKeyOfResolvable(dl, key, u, i);
      RecordKeyOfResolvable(dl, key, u, j);
    }
  }

  /** Every image key present before is still present, there are exactly as
      many survivors as distinct keys, and each survivor is the first old
      record carrying its key. */
  lemma RemoveReduncKeepsFirst<S, K>(s: Store<S>, key: S -> K)
    requires s.dataList.Some? && Resolvable(s.dataList.value, s.preds)
    ensures var dl, u := s.dataList.value, RemoveRedunc(s, key).state.preds;
      && Keys(u, RecordKey(dl, key)) == Keys(s.preds, RecordKey(dl, key))
      && |u| == |Keys(s.preds, RecordKey(dl, key))| <= |s.preds|
      && Resolvable(dl, u)
      && forall i :: 0 <= i < |u| ==>
           Some(ImageKey(dl, key, u[i].dataIdx)) in Keys(s.preds, RecordKey(dl, key))
           && u[i] == s.preds[FirstIndex(s.preds, RecordKey(dl, key), Some(ImageKey(dl, key, u[i].dataIdx)))]
  {
    var dl := s.dataList.value;
    var rk := RecordKey(dl, key);
    var u := RemoveRedunc(s, key).state.preds;
    RemoveReduncIsSubseq(s, key);
    if |s.preds| > 0 {
      UniqueKeepsFirst(s.preds, rk);
      forall i | 0 <= i < |u|
        ensures rk(u[i]) == Some(ImageKey(dl, key, u[i].dataIdx))
      {
        RecordKeyOfResolvable(dl, key, u, i);
      }
    }
  }

  /** The survivors keep the order in which their image keys first occur
      among the old records, even when old records repeat by value. */
  lemma RemoveReduncFirstOrdered<S, K>(s: Store<S>, key: S -> K)
    requires s.dataList.Some? && Resolvable(s.dataList.value, s.preds)
    ensures var dl, u := s.dataList.value, RemoveRedunc(s, key).state.preds;
      FirstOrdered(u, s.preds, RecordKey(dl, key))
  {
    if |s.preds| > 0 {
      UniqueFirstOrdered(s.preds, RecordKey(s.dataList.value, key));
    }
  }

  /** `remove_redunc` is idempotent: a second call changes nothing and
      reports the same count. */
  lemma RemoveReduncIdempotent<S, K>(s: Store<S>, key: S -> K)
    requires RemoveRedunc(s, key).Succeeded()
    ensures RemoveRedunc(RemoveRedunc(s, key).state, key) == RemoveRedunc(s, key)
  {
    if |s.preds| > 0 {
      var dl := s.dataList.value;
      RemoveReduncIsSubseq(s, key);
      UniqueIdempotent(s.preds, RecordKey(dl, key));
    }
  }

  /** The sample list of the scenario below: samples 7 and 9 show the same
      image. */
  function ScenarioSamples(): seq<string>
  {
    ["s0", "s1", "s2", "img3", "s4", "s5", "s6", "img7", "s8", "img7"]
  }

  function ScenarioBatch(): Batch
  {
    Batch([[1.0], [2.0]], [[3.0], [4.0]], [[5.0], [6.0]], [[7.0], [8.0]])
  }

  /** Two batches that both contain sample 3, then samples 7 and 9, which
      show the same image: of the four records only the first for each
      image survives, in the original order. */
  lemma TwoBatchesScenario(half: Vector -> Vector)
    ensures var first := Update(Init(Some(ScenarioSamples())), [3, 7], ScenarioBatch(), half);
      var second := Update(first.state, [3, 9], ScenarioBatch(), half);
      var dedup := RemoveRedunc(second.state, (p: string) => p);
      && first.Succeeded() && second.Succeeded() && |second.state.preds| == 4
      && dedup.result == Ok(2)
      && dedup.state.preds == first.state.preds
  {
    var dl, b := ScenarioSamples(), ScenarioBatch();
    var key := (p: string) => p;
    var first := Update(Init(Some(dl)), [3, 7], b, half);
    var second := Update(first.state, [3, 9], b, half);
    var preds := second.state.preds;
    assert |preds| == 4;
    assert preds[..2] == first.state.preds;
    assert preds[0].dataIdx == 3 && preds[1].dataIdx == 7;
    assert preds[2].dataIdx == 3 && preds[3].dataIdx == 9;
    ScenarioKeys(preds);
    UniqueOfABAB(preds, RecordKey(dl, key));
  }

  /** The image keys of four scenario records with indices 3, 7, 3, 9. */
  lemma ScenarioKeys(preds: seq<Record>)
    requires |preds| == 4
    requires preds[0].dataIdx == 3 && preds[1].dataIdx == 7
    requires preds[2].dataIdx == 3 && preds[3].dataIdx == 9
    ensures Resolvable(ScenarioSamples(), preds)
    ensures var rk := RecordKey(ScenarioSamples(), (p: string) => p);
      && rk(preds[0]) == Some("img3") && rk(preds[1]) == Some("img7")
      && rk(preds[2]) == Some("img3") && rk(preds[3]) == Some("img7")
  {
    var dl := ScenarioSamples();
    assert Resolve(|dl|, 3) == 3 && Resolve(|dl|, 7) == 7 && Resolve(|dl|, 9) == 9;
  }

  /** What `save_to_pkl` writes: the sample list and the records. The byte
      encoding is not modelled. */
  datatype Snapshot<S> = Snapshot(dataList: seq<S>, preds: seq<Record>)

  /** `save_to_pkl`: reading an unset sample list raises. */
  function Save<S>(s: Store<S>): (r: Result<Snapshot<S>>)
    ensures r.Raised? <==> s.dataList.None?
    ensures r.Raised? ==> r.error == AttributeError
  {
    match s.dataList
    case None => Raised(AttributeError)
    case Some(dl) => Ok(Snapshot(dl, s.preds))
  }

  /** `load_from_pkl`: both the sample list and the records are replaced. */
  function Load<S>(s: Store<S>, snap: Snapshot<S>): (r: Store<S>)
    ensures r.dataList == Some(snap.dataList) && r.preds == snap.preds
  {
    Store(Some(snap.dataList), snap.preds)
  }

  /** Saving and then loading into any evaluator reproduces the saved one. */
  lemma SaveLoadRoundTrip<S>(s: Store<S>, other: Store<S>)
    requires s.dataList.Some?
    ensures Save(s).Ok? && Load(other, Save(s).value) == s
  {
  }
}
