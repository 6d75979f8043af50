/** How `Evaluator.visualize_result` splits the result list among its
    rendering worker processes: `min(8, n)` workers, each taking `n // k`
    consecutive records, the last one also taking the remainder. Only the
    index arithmetic is modelled; the processes are not.
 */
module Partition {
  import opened Outcomes

  /** The upper bound on the number of worker processes. */
  const MaxWorkers: nat := 8

  /** The half-open index range `[start, end)` given to one worker. */
  datatype Span = Span(start: nat, end: nat)

  function Min(a: nat, b: nat): nat { if a <= b then a else b }

  /** The ranges for `n` records; with no records the chunk size
      `n // min(8, n)` divides by zero. */
  function WorkerSpans(n: nat): (r: Result<seq<Span>>)
    ensures r.Raised? <==> n == 0
    ensures r.Raised? ==> r.error == ZeroDivisionError
    ensures r.Ok? ==> |r.value| == Min(MaxWorkers, n)
  {
    if n == 0 then Raised(ZeroDivisionError)
    else
      var k := Min(MaxWorkers, n);
      var each := n / k;
      Ok(seq(k, i requires 0 <= i < k => Span(i * each, if i < k - 1 then (i + 1) * each else n)))
  }

  /** The number of records every worker but the last receives. */
  function ChunkSize(n: nat): nat
    requires n > 0
  {
    n / Min(MaxWorkers, n)
  }

  lemma MulMono(a: nat, b: nat, c: nat)
    requires a <= b
    ensures a * c <= b * c
  {
  }

  /** Facts about the chunk size: at least one record, and `k` chunks fit. */
  lemma ChunkFits(n: nat)
    requires n > 0
    ensures ChunkSize(n) >= 1
    ensures Min(MaxWorkers, n) * ChunkSize(n) <= n
  {
    var k := Min(MaxWorkers, n);
    assert n / k * k <= n;
  }

  /** The spans are contiguous, start at 0, end at `n`, are non-empty, and
      all but the last hold exactly `ChunkSize(n)` records; the last holds
      at least that many. */
  lemma SpansContiguous(n: nat)
    requires n > 0
    ensures var spans := WorkerSpans(n).value; var k := |spans|;
      && k >= 1
      && spans[0].start == 0
      && spans[k - 1].end == n
      && (forall i :: 0 <= i < k - 1 ==> spans[i].end == spans[i + 1].start)
      && (forall i :: 0 <= i < k - 1 ==> spans[i].end - spans[i].start == ChunkSize(n))
      && spans[k - 1].end - spans[k - 1].start >= ChunkSize(n)
      && (forall i :: 0 <= i < k ==> spans[i].start < spans[i].end)
  {
    var spans := WorkerSpans(n).value;
    var k := |spans|;
    var each := ChunkSize(n);
    ChunkFits(n);
    forall i | 0 <= i < k - 1
      ensures spans[i].end - spans[i].start == each
    {
      assert spans[i].end == (i + 1) * each;
    }
    assert spans[k - 1].start == (k - 1) * each;
    assert (k - 1) * each + each == k * each;
    forall i | 0 <= i < k
      ensures spans[i].start < spans[i].end
    {
      if i == k - 1 {
        assert spans[i].start + each <= n;
      } else {
        assert spans[i].end == spans[i].start + each;
      }
    }
  }

  /** The worker responsible for record `x`. */
  function Owner(n: nat, x: nat): nat
    requires x < n
  {
    Min(x / ChunkSize(n), Min(MaxWorkers, n) - 1)
  }

  lemma StartsMonotone(n: nat, i: nat, j: nat)
    requires n > 0
    requires i <= j < |WorkerSpans(n).value|
    ensures WorkerSpans(n).value[i].start <= WorkerSpans(n).value[j].start
  {
    MulMono(i, j, ChunkSize(n));
  }

  lemma DivBounds(x: nat, d: nat)
    requires d > 0
    ensures (x / d) * d <= x < (x / d) * d + d
  {
    assert x == (x / d) * d + x % d;
  }

  /** Record `x` lies in the span of its owner. */
  lemma OwnerContains(n: nat, x: nat)
    requires x < n
    ensures var spans := WorkerSpans(n).value;
      Owner(n, x) < |spans| && spans[Owner(n, x)].start <= x < spans[Owner(n, x)].end
  {
    var spans := WorkerSpans(n).value;
    var k := |spans|;
    var each := ChunkSize(n);
    var q := x / each;
    var o := Owner(n, x);
    ChunkFits(n);
    DivBounds(x, each);
    if q < k - 1 {
      assert o == q;
      assert spans[o] == Span(q * each, (q + 1) * each);
      assert (q + 1) * each == q * each + each;
    } else {
      assert o == k - 1;
      assert spans[o] == Span((k - 1) * each, n);
      MulMono(k - 1, q, each);
    }
  }

  /** Spans are pairwise disjoint. */
  lemma SpansDisjoint(n: nat, i: nat, j: nat, x: nat)
    requires n > 0
    requires i < j < |WorkerSpans(n).value|
    ensures x < WorkerSpans(n).value[i].end ==> x < WorkerSpans(n).value[j].start
  {
    SpansContiguous(n);
    StartsMonotone(n, i + 1, j);
  }

  /** Every record index below `n` lies in exactly one span: the owner's. */
  lemma SpansCoverOnce(n: nat, x: nat)
    requires x < n
    ensures var spans := WorkerSpans(n).value;
      && Owner(n, x) < |spans|
      && spans[Owner(n, x)].start <= x < spans[Owner(n, x)].end
      && forall i :: 0 <= i < |spans| && spans[i].start <= x < spans[i].end ==> i == Owner(n, x)
  {
    var spans := WorkerSpans(n).value;
    var o := Owner(n, x);
    OwnerContains(n, x);
    forall i | 0 <= i < |spans| && spans[i].start <= x < spans[i].end
      ensures i == o
    {
      if i < o {
        SpansDisjoint(n, i, o, x);
      } else if o < i {
        SpansDisjoint(n, o, i, x);
      }
    }
  }

  /** Concatenation of a sequence of sequences, in order. */
  function Concat<T>(parts: seq<seq<T>>): seq<T>
    decreases |parts|
  {
    if |parts| == 0 then [] else Concat(parts[..|parts| - 1]) + parts[|parts| - 1]
  }

  /** The slices `records[start:end]` the workers receive. */
  function Slices<T>(records: seq<T>, spans: seq<Span>): seq<seq<T>>
    requires forall i :: 0 <= i < |spans| ==> spans[i].start <= spans[i].end <= |records|
  {
    seq(|spans|, i requires 0 <= i < |spans| => records[spans[i].start..spans[i].end])
  }

  lemma {:induction false} ConcatContiguous<T>(records: seq<T>, spans: seq<Span>, m: nat)
    requires forall i :: 0 <= i < |spans| ==> spans[i].start <= spans[i].end <= |records|
    requires forall i :: 0 <= i < |spans| - 1 ==> spans[i].end == spans[i + 1].start
    requires 0 < m <= |spans| && spans[0].start == 0
    ensures Concat(Slices(records, spans)[..m]) == records[..spans[m - 1].end]
  {
    var parts := Slices(records, spans)[..m];
    if m == 1 {
      assert parts[..0] == [];
    } else {
      assert parts[..m - 1] == Slices(records, spans)[..m - 1];
      ConcatContiguous(records, spans, m - 1);
      assert records[..spans[m - 2].end] + records[spans[m - 1].start..spans[m - 1].end]
        == records[..spans[m - 1].end];
    }
  }

  /** Together the workers see every record exactly once, in order:
      concatenating their slices gives back the whole result list. */
  lemma SlicesReassemble<T>(records: seq<T>)
    requires |records| > 0
    ensures var spans := WorkerSpans(|records|).value;
      && (forall i :: 0 <= i < |spans| ==> spans[i].start <= spans[i].end <= |records|)
      && Concat(Slices(records, spans)) == records
  {
    var n := |records|;
    var spans := WorkerSpans(n).value;
    SpansContiguous(n);
    forall i | 0 <= i < |spans|
      ensures spans[i].end <= n
    {
      if i < |spans| - 1 {
        StartsMonotone(n, i + 1, |spans| - 1);
      }
    }
    ConcatContiguous(records, spans, |spans|);
    assert records[..n] == records;
    assert Slices(records, spans)[..|spans|] == Slices(records, spans);
  }
}
