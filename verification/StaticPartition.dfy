/** The even split that the scheduler and the weight layout both compute, and the scheduler's partition of a job. */
module StaticPartition {
  import opened WorkStealing

  /** First item of part j when n items are split into p parts, the first n % p parts one longer. */
  function Split(n: nat, p: nat, j: nat): nat
    requires p > 0
  {
    j * (n / p) + if j < n % p then j else n % p
  }

  /** Length of part j: base plus one for the first `remain` parts. */
  function PartSize(n: nat, p: nat, j: nat): nat
    requires p > 0
  {
    n / p + if j < n % p then 1 else 0
  }

  lemma SplitStep(n: nat, p: nat, j: nat)
    requires p > 0
    ensures Split(n, p, j + 1) == Split(n, p, j) + PartSize(n, p, j)
  {
    assert (j + 1) * (n / p) == j * (n / p) + n / p;
  }

  lemma SplitEnds(n: nat, p: nat)
    requires p > 0
    ensures Split(n, p, 0) == 0 && Split(n, p, p) == n
  {
    assert p * (n / p) + n % p == n;
  }

  lemma {:induction false} SplitMonotone(n: nat, p: nat, i: nat, j: nat)
    requires p > 0 && i <= j
    ensures Split(n, p, i) <= Split(n, p, j)
    decreases j - i
  {
    if i < j {
      SplitStep(n, p, i);
      SplitMonotone(n, p, i + 1, j);
    }
  }

  /** Every item lies in exactly one part. */
  lemma {:induction false} SplitFind(n: nat, p: nat, x: nat, hi: nat) returns (j: nat)
    requires p > 0 && hi <= p && x < Split(n, p, hi)
    ensures j < hi && Split(n, p, j) <= x < Split(n, p, j + 1)
  {
    if Split(n, p, hi - 1) <= x {
      j := hi - 1;
    } else {
      j := SplitFind(n, p, x, hi - 1);
    }
  }

  lemma SplitUnique(n: nat, p: nat, x: nat, i: nat, j: nat)
    requires p > 0 && Split(n, p, i) <= x < Split(n, p, i + 1) && Split(n, p, j) <= x < Split(n, p, j + 1)
    ensures i == j
  {
    if i < j { SplitMonotone(n, p, i + 1, j); }
    if j < i { SplitMonotone(n, p, j + 1, i); }
  }

  // ----- The partition of one job.

  /** Threads are numbered node by node: id of node n's first thread, given each node's thread count. */
  function First(counts: seq<nat>, n: nat): nat
    requires n <= |counts|
  {
    if n == 0 then 0 else First(counts, n - 1) + counts[n - 1]
  }

  lemma {:induction false} FirstMonotone(counts: seq<nat>, m: nat, n: nat)
    requires m <= n <= |counts|
    ensures First(counts, m) <= First(counts, n)
    decreases n
  {
    if m < n { FirstMonotone(counts, m, n - 1); }
  }

  /** First task id of node nid in a job of k rounds over nth blocks. */
  function NodeStart(nodes: nat, k: nat, nth: nat, nid: nat): nat
    requires nodes > 0
  {
    Split(nth, nodes, nid) * k
  }

  function NodeTasks(nodes: nat, k: nat, nth: nat, nid: nat): nat
    requires nodes > 0
  {
    PartSize(nth, nodes, nid) * k
  }

  /** The range of the j-th thread of node nid. */
  function Slice(threads: nat, nodes: nat, k: nat, nth: nat, nid: nat, j: nat): Range
    requires nodes > 0 && threads > 0
  {
    var tasks := NodeTasks(nodes, k, nth, nid);
    var start := NodeStart(nodes, k, nth, nid);
    Range(start + Split(tasks, threads, j), start + Split(tasks, threads, j + 1))
  }

  lemma NodeStartStep(nodes: nat, k: nat, nth: nat, nid: nat)
    requires nodes > 0
    ensures NodeStart(nodes, k, nth, nid + 1) == NodeStart(nodes, k, nth, nid) + NodeTasks(nodes, k, nth, nid)
  {
    SplitStep(nth, nodes, nid);
    var extra := PartSize(nth, nodes, nid);
    assert (Split(nth, nodes, nid) + extra) * k == Split(nth, nodes, nid) * k + extra * k;
  }

  /** Ranges in thread order, one after the other, ending at `end`. */
  ghost predicate Sorted(ranges: seq<Range>, end: int) {
    && (forall v :: 0 <= v < |ranges| ==> 0 <= ranges[v].begin <= ranges[v].end <= end)
    && (forall u, v :: 0 <= u < v < |ranges| ==> ranges[u].end <= ranges[v].begin)
  }

  /** The threads to dispatch, in order, are those of nodes with tasks. */
  ghost predicate Lists(ranges: seq<Range>, order: seq<nat>) {
    && (forall a :: 0 <= a < |order| ==> order[a] < |ranges|)
    && (forall a, b :: 0 <= a < b < |order| ==> order[a] < order[b])
    && (forall v: nat :: NonEmpty(ranges, v) ==> v in order)
  }

  datatype Outcome = NodeWithoutThreads | Partitioned(ranges: seq<Range>, order: seq<nat>)

  /** The inner loop of do_k_work_stealing_job: one node's tasks, dealt to its threads in order. */
  method DealNode(threads: nat, tasks: nat, begin0: nat, ranges0: seq<Range>, order0: seq<nat>)
    returns (ranges: seq<Range>, order: seq<nat>)
    requires threads > 0 && Sorted(ranges0, begin0) && Lists(ranges0, order0)
    ensures |ranges| == |ranges0| + threads && ranges0 <= ranges
    ensures Sorted(ranges, begin0 + tasks) && Lists(ranges, order)
    ensures forall j :: 0 <= j < threads ==>
      ranges[|ranges0| + j] == Range(begin0 + Split(tasks, threads, j), begin0 + Split(tasks, threads, j + 1))
  {
    var end := begin0;
    ranges, order := ranges0, order0;
    SplitEnds(tasks, threads);
    hide Split, PartSize, Lists;
    for j := 0 to threads
      invariant |ranges| == |ranges0| + j && ranges0 <= ranges && end == begin0 + Split(tasks, threads, j)
      invariant Sorted(ranges, end) && Lists(ranges, order)
      invariant forall l :: 0 <= l < j ==>
        ranges[|ranges0| + l] == Range(begin0 + Split(tasks, threads, l), begin0 + Split(tasks, threads, l + 1))
    {
      var begin := end;
      end := begin + PartSize(tasks, threads, j);
      SplitStep(tasks, threads, j);
      // A node without tasks is skipped: its threads are not touched.
      ListsPush(ranges, order, Range(begin, end), tasks > 0);
      ranges, order := ranges + [Range(begin, end)], if tasks > 0 then order + [|ranges|] else order;
    }
  }

  lemma ListsPush(ranges: seq<Range>, order: seq<nat>, r: Range, listed: bool)
    requires Lists(ranges, order) && (r.begin < r.end ==> listed)
    ensures Lists(ranges + [r], if listed then order + [|ranges|] else order)
  {
    var order' := if listed then order + [|ranges|] else order;
    forall v: nat | NonEmpty(ranges + [r], v) ensures v in order' {
      assert v < |ranges| ==> NonEmpty(ranges, v);
      assert listed ==> order'[|order|] == |ranges|;
    }
  }

  /** The partition loop of do_k_work_stealing_job; a node without threads makes it throw. */
  method PartitionJob(counts: seq<nat>, k: nat, nth: nat) returns (r: Outcome)
    requires |counts| > 0
    ensures r.NodeWithoutThreads? <==> 0 in counts
    ensures r.Partitioned? ==> |r.ranges| == First(counts, |counts|)
    ensures r.Partitioned? ==> Disjoint(r.ranges) && Covers(r.ranges, r.order, {})
    ensures r.Partitioned? ==> SlicesUpTo(r.ranges, counts, k, nth, |counts|)
  {
    var nodes := |counts|;
    var ranges, order, end := [], [], 0;
    SplitEnds(nth, nodes);
    for nid := 0 to nodes
      invariant |ranges| == First(counts, nid) && end == NodeStart(nodes, k, nth, nid)
      invariant Sorted(ranges, end) && Lists(ranges, order)
      invariant forall n :: 0 <= n < nid ==> counts[n] > 0
      invariant SlicesUpTo(ranges, counts, k, nth, nid)
    {
      var tasks := NodeTasks(nodes, k, nth, nid);
      if counts[nid] == 0 {
        return NodeWithoutThreads;
      }
      NodeStartStep(nodes, k, nth, nid);
      ghost var ranges0 := ranges;
      ranges, order := DealNode(counts[nid], tasks, end, ranges, order);
      SlicesPush(ranges0, ranges, counts, k, nth, nid);
      end := end + tasks;
      hide Sorted, Lists, SlicesUpTo;
    }
    assert Covers(ranges, order, {});
    r := Partitioned(ranges, order);
  }

  /** The j-th thread of node n has its slice. */
  ghost predicate HasSlice(ranges: seq<Range>, counts: seq<nat>, k: nat, nth: nat, n: nat, j: nat) {
    && n < |counts| && j < counts[n] && First(counts, n) + j < |ranges|
    && ranges[First(counts, n) + j] == Slice(counts[n], |counts|, k, nth, n, j)
  }

  /** Every thread of the first `upTo` nodes has its slice. */
  ghost predicate SlicesUpTo(ranges: seq<Range>, counts: seq<nat>, k: nat, nth: nat, upTo: nat) {
    && upTo <= |counts|
    && forall n, j :: 0 <= n < upTo && 0 <= j < counts[n] ==> HasSlice(ranges, counts, k, nth, n, j)
  }

  lemma SlicesPush(ranges0: seq<Range>, ranges: seq<Range>, counts: seq<nat>, k: nat, nth: nat, nid: nat)
    requires nid < |counts| && |ranges0| == First(counts, nid) && |ranges| == First(counts, nid + 1) && ranges0 <= ranges
    requires SlicesUpTo(ranges0, counts, k, nth, nid) && counts[nid] > 0
    requires forall j :: 0 <= j < counts[nid] ==> ranges[|ranges0| + j] == Slice(counts[nid], |counts|, k, nth, nid, j)
    ensures SlicesUpTo(ranges, counts, k, nth, nid + 1)
  {
    forall n, j | 0 <= n < nid + 1 && 0 <= j < counts[n] ensures HasSlice(ranges, counts, k, nth, n, j) {
      if n < nid {
        assert HasSlice(ranges0, counts, k, nth, n, j);
      } else {
        assert ranges[|ranges0| + j] == Slice(counts[nid], |counts|, k, nth, nid, j);
      }
    }
  }
}
