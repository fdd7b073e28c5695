/**
 The scheduler of PRDCC: the workers label every pair of transactions of a batch
 with the conflict the predictor sees, and a greedy pass over the ids, repeated on
 what it postponed, cuts the batch into micro-blocks.
 */
module MicroBlockScheduler {
  import opened Transactions
  import opened Aria
  import opened Strides
  import opened DataSummary
  import opened ConflictPredictor

  type MicroBlock = seq<Txn>

  datatype Edge = Edge(target: nat, conflict: ConflictType)

  /** The outgoing edges of every transaction id. */
  type Graph = seq<seq<Edge>>

  predicate Forbidden(o: Options, c: ConflictType) {
    c == WAW || c == RAW || (!o.reordering && c == WAR)
  }

  ghost predicate ForbiddenEdge(o: Options, edges: seq<Edge>, target: nat) {
    exists e :: e in edges && e.target == target && Forbidden(o, e.conflict)
  }

  /** The two may not share a micro-block. */
  ghost predicate Forbids(o: Options, g: Graph, y: Txn, x: Txn) {
    y.id < |g| && ForbiddenEdge(o, g[y.id], x.id)
  }

  ghost predicate Blocked(o: Options, g: Graph, mb: MicroBlock, x: Txn) {
    exists y :: y in mb && Forbids(o, g, y, x)
  }

  ghost predicate IdsBelow(xs: seq<Txn>, n: nat) {
    forall x :: x in xs ==> x.id < n
  }

  // ------------------------------------------------------------------
  // The greedy pass
  // ------------------------------------------------------------------

  /** One pass: who enters the current micro-block, and who is postponed. */
  ghost function Pass(o: Options, g: Graph, xs: seq<Txn>): (MicroBlock, seq<Txn>) {
    if xs == [] then ([], [])
    else
      var (mb, postponed) := Pass(o, g, xs[..|xs| - 1]);
      var x := xs[|xs| - 1];
      if Blocked(o, g, mb, x) then (mb, postponed + [x]) else (mb + [x], postponed)
  }

  lemma {:induction false} PassIsPermutation(o: Options, g: Graph, xs: seq<Txn>)
    ensures multiset(Pass(o, g, xs).0) + multiset(Pass(o, g, xs).1) == multiset(xs)
    decreases |xs|
  {
    if xs != [] {
      PassIsPermutation(o, g, xs[..|xs| - 1]);
      assert multiset(xs) == multiset(xs[..|xs| - 1]) + multiset([xs[|xs| - 1]]) by {
        assert xs == xs[..|xs| - 1] + [xs[|xs| - 1]];
      }
    }
  }

  /** The first transaction enters, and nobody is lost. */
  lemma {:induction false} PassSplits(o: Options, g: Graph, xs: seq<Txn>)
    ensures forall x :: x in xs <==> x in Pass(o, g, xs).0 || x in Pass(o, g, xs).1
    ensures xs != [] ==> Pass(o, g, xs).0 != [] && Pass(o, g, xs).0[0] == xs[0]
    ensures |Pass(o, g, xs).0| + |Pass(o, g, xs).1| == |xs|
    decreases |xs|
  {
    hide Blocked;
    if xs != [] {
      var front, x := xs[..|xs| - 1], xs[|xs| - 1];
      PassSplits(o, g, front);
      assert forall z :: z in xs <==> z in front || z == x by { assert xs == front + [x]; }
      if front == [] { NobodyBlocks(o, g, x); }
    }
  }

  lemma NobodyBlocks(o: Options, g: Graph, x: Txn)
    ensures !Blocked(o, g, [], x)
  {}

  lemma {:induction false} PassAscending(o: Options, g: Graph, xs: seq<Txn>)
    requires Ascending(xs)
    ensures Ascending(Pass(o, g, xs).0) && Ascending(Pass(o, g, xs).1)
    decreases |xs|
  {
    if xs != [] {
      var front, x := xs[..|xs| - 1], xs[|xs| - 1];
      var (mb, postponed) := Pass(o, g, front);
      AscendingFront(xs);
      PassAscending(o, g, front);
      PassSplits(o, g, front);
      AscendingAppend(mb, x);
      AscendingAppend(postponed, x);
    }
  }

  ghost predicate NoneForbidden(o: Options, g: Graph, mb: MicroBlock) {
    forall i, j :: 0 <= i < j < |mb| ==> !Forbids(o, g, mb[i], mb[j])
  }

  /** Nothing in the block forbids anything after it, and whatever was postponed had a reason. */
  lemma {:induction false} PassHasReasons(o: Options, g: Graph, xs: seq<Txn>)
    requires Ascending(xs)
    ensures NoneForbidden(o, g, Pass(o, g, xs).0)
    ensures forall x :: x in Pass(o, g, xs).1 ==> exists y :: y in Pass(o, g, xs).0 && y.id < x.id && Forbids(o, g, y, x)
    decreases |xs|
  {
    if xs != [] {
      var front, x := xs[..|xs| - 1], xs[|xs| - 1];
      var (mb, postponed) := Pass(o, g, front);
      AscendingFront(xs);
      PassHasReasons(o, g, front);
      PassSplits(o, g, front);
      forall z | z in Pass(o, g, xs).1
        ensures exists y :: y in Pass(o, g, xs).0 && y.id < z.id && Forbids(o, g, y, z)
      {
        if z in postponed {
          var y :| y in mb && y.id < z.id && Forbids(o, g, y, z);
        } else {
          var y :| y in mb && Forbids(o, g, y, x);
        }
      }
      if !Blocked(o, g, mb, x) {
        forall i, j | 0 <= i < j < |mb + [x]|
          ensures !Forbids(o, g, (mb + [x])[i], (mb + [x])[j])
        {
          assert (mb + [x])[i] in mb;
        }
      }
    }
  }

  // ------------------------------------------------------------------
  // The schedule
  // ------------------------------------------------------------------

  ghost function Schedule(o: Options, g: Graph, xs: seq<Txn>): seq<MicroBlock>
    decreases |xs|
  {
    if xs == [] then []
    else
      PassSplits(o, g, xs);
      [Pass(o, g, xs).0] + Schedule(o, g, Pass(o, g, xs).1)
  }

  ghost function Flatten(bs: seq<MicroBlock>): seq<Txn> {
    if bs == [] then [] else bs[0] + Flatten(bs[1..])
  }

  /** The micro-blocks hold each transaction of the batch exactly once. */
  lemma {:induction false} ScheduleIsPartition(o: Options, g: Graph, xs: seq<Txn>)
    ensures multiset(Flatten(Schedule(o, g, xs))) == multiset(xs)
    decreases |xs|
  {
    if xs != [] {
      var (mb, postponed) := Pass(o, g, xs);
      PassIsPermutation(o, g, xs);
      PassSplits(o, g, xs);
      ScheduleIsPartition(o, g, postponed);
      var rest := Schedule(o, g, postponed);
      assert Schedule(o, g, xs) == [mb] + rest;
      assert ([mb] + rest)[1..] == rest;
      assert multiset(mb + Flatten(rest)) == multiset(mb) + multiset(Flatten(rest));
    }
  }

  ghost predicate GoodBlock(o: Options, g: Graph, mb: MicroBlock) {
    mb != [] && Ascending(mb) && NoneForbidden(o, g, mb)
  }

  /** No micro-block is empty, its ids ascend, and no pair in it carries a forbidden label. */
  lemma {:induction false} ScheduledBlocksAreGood(o: Options, g: Graph, xs: seq<Txn>, b: nat)
    requires Ascending(xs) && b < |Schedule(o, g, xs)|
    ensures GoodBlock(o, g, Schedule(o, g, xs)[b])
    ensures forall x :: x in Schedule(o, g, xs)[b] ==> x in xs
    decreases |xs|
  {
    hide Ascending, NoneForbidden, Forbids, Pass;
    PassSplits(o, g, xs);
    PassAscending(o, g, xs);
    PassHasReasons(o, g, xs);
    if b > 0 { ScheduledBlocksAreGood(o, g, Pass(o, g, xs).1, b - 1); }
  }

  /** A transaction is in a later block because a smaller id of every earlier block forbids it there. */
  lemma {:induction false} PostponedForReason(o: Options, g: Graph, xs: seq<Txn>, a: nat, b: nat, x: Txn)
    requires Ascending(xs) && a < b < |Schedule(o, g, xs)| && x in Schedule(o, g, xs)[b]
    ensures exists y :: y in Schedule(o, g, xs)[a] && y.id < x.id && Forbids(o, g, y, x)
    decreases |xs|
  {
    var postponed := Pass(o, g, xs).1;
    PassSplits(o, g, xs);
    PassAscending(o, g, xs);
    if a == 0 {
      ScheduledBlocksAreGood(o, g, postponed, b - 1);
      PassHasReasons(o, g, xs);
    } else {
      PostponedForReason(o, g, postponed, a - 1, b - 1, x);
    }
  }

  ghost predicate ForbiddenChain(o: Options, g: Graph, chain: seq<Txn>) {
    forall i :: 0 <= i < |chain| - 1 ==> chain[i].id < chain[i + 1].id && Forbids(o, g, chain[i], chain[i + 1])
  }

  /** So there are never more micro-blocks than the longest chain of forbidden edges is long. */
  lemma {:induction false} ChainThroughBlocks(o: Options, g: Graph, xs: seq<Txn>, b: nat, x: Txn) returns (chain: seq<Txn>)
    requires Ascending(xs) && b < |Schedule(o, g, xs)| && x in Schedule(o, g, xs)[b]
    ensures |chain| == b + 1 && chain[b] == x && ForbiddenChain(o, g, chain)
    ensures forall i :: 0 <= i <= b ==> chain[i] in Schedule(o, g, xs)[i]
    decreases b
  {
    if b == 0 {
      chain := [x];
    } else {
      PostponedForReason(o, g, xs, b - 1, b, x);
      var y :| y in Schedule(o, g, xs)[b - 1] && y.id < x.id && Forbids(o, g, y, x);
      var before := ChainThroughBlocks(o, g, xs, b - 1, y);
      chain := before + [x];
    }
  }

  // ------------------------------------------------------------------
  // The schedule in terms of the labels
  // ------------------------------------------------------------------

  /** There is an edge between the two that says: both write a key, or the second reads what the first writes, or, without reordering, writes what it reads. */
  ghost predicate Separated(o: Options, g: Graph, y: Txn, x: Txn) {
    y.id < |g| &&
    exists e :: e in g[y.id] && e.target == x.id && (e.conflict == WAW || e.conflict == RAW || (e.conflict == WAR && !o.reordering))
  }

  lemma ForbidsIffSeparated(o: Options, g: Graph, y: Txn, x: Txn)
    ensures Forbids(o, g, y, x) <==> Separated(o, g, y, x)
  {}

  lemma SeparatedFromEarlier(o: Options, g: Graph, xs: seq<Txn>, a: nat, b: nat, x: Txn) returns (y: Txn)
    requires Ascending(xs) && a < b < |Schedule(o, g, xs)| && x in Schedule(o, g, xs)[b]
    ensures y in Schedule(o, g, xs)[a] && y in xs && y.id < x.id && Forbids(o, g, y, x)
  {
    hide Schedule, Forbids;
    PostponedForReason(o, g, xs, a, b, x);
    ScheduledBlocksAreGood(o, g, xs, a);
    y :| y in Schedule(o, g, xs)[a] && y.id < x.id && Forbids(o, g, y, x);
  }

  lemma NotSeparatedInside(o: Options, g: Graph, mb: MicroBlock, y: Txn, x: Txn)
    requires GoodBlock(o, g, mb) && y in mb && x in mb && y.id < x.id
    ensures !Forbids(o, g, y, x)
  {
    hide Forbids;
    var i, j :| 0 <= i < |mb| && 0 <= j < |mb| && mb[i] == y && mb[j] == x;
    assert i < j;
  }

  /** Whoever is in a block is separated from a smaller id of every earlier block, and from nobody before it in its own. */
  lemma BlocksBySeparation(o: Options, g: Graph, xs: seq<Txn>, a: nat, b: nat, x: Txn)
    requires Ascending(xs) && a <= b < |Schedule(o, g, xs)| && x in Schedule(o, g, xs)[b]
    ensures a < b ==> exists y :: y in Schedule(o, g, xs)[a] && y.id < x.id && Separated(o, g, y, x)
    ensures a == b ==> forall y :: y in Schedule(o, g, xs)[a] && y.id < x.id ==> !Separated(o, g, y, x)
  {
    hide Schedule, Separated, Forbids;
    if a < b {
      var y := SeparatedFromEarlier(o, g, xs, a, b, x);
      ForbidsIffSeparated(o, g, y, x);
    } else {
      ScheduledBlocksAreGood(o, g, xs, b);
      forall y: Txn | y in Schedule(o, g, xs)[a] && y.id < x.id
        ensures !Separated(o, g, y, x)
      {
        NotSeparatedInside(o, g, Schedule(o, g, xs)[b], y, x);
        ForbidsIffSeparated(o, g, y, x);
      }
    }
  }

  lemma {:induction false} NobodyPostponed(o: Options, g: Graph, xs: seq<Txn>)
    requires forall i, j :: 0 <= i < j < |xs| ==> !Separated(o, g, xs[i], xs[j])
    ensures Pass(o, g, xs).0 == xs && Pass(o, g, xs).1 == []
    decreases |xs|
  {
    hide Separated, Forbids;
    if xs != [] {
      var front, x := xs[..|xs| - 1], xs[|xs| - 1];
      NobodyPostponed(o, g, front);
      forall y: Txn | y in front
        ensures !Forbids(o, g, y, x)
      {
        var i :| 0 <= i < |front| && front[i] == y;
        assert xs[i] == y;
        ForbidsIffSeparated(o, g, y, x);
      }
      assert xs == front + [x];
    }
  }

  lemma ScheduleOfNobodyPostponed(o: Options, g: Graph, xs: seq<Txn>)
    requires xs != [] && Pass(o, g, xs).0 == xs && Pass(o, g, xs).1 == []
    ensures Schedule(o, g, xs) == [xs]
  {
    hide Pass;
  }

  /** All share one block if and only if nobody is separated from anybody after it. */
  lemma OneBlockIff(o: Options, g: Graph, xs: seq<Txn>)
    requires Ascending(xs) && xs != []
    ensures Schedule(o, g, xs) == [xs] <==> forall i, j :: 0 <= i < j < |xs| ==> !Separated(o, g, xs[i], xs[j])
  {
    hide Schedule, Separated;
    if Schedule(o, g, xs) == [xs] {
      forall i, j | 0 <= i < j < |xs|
        ensures !Separated(o, g, xs[i], xs[j])
      {
        BlocksBySeparation(o, g, xs, 0, 0, xs[j]);
      }
    }
    if forall i, j :: 0 <= i < j < |xs| ==> !Separated(o, g, xs[i], xs[j]) {
      NobodyPostponed(o, g, xs);
      ScheduleOfNobodyPostponed(o, g, xs);
    }
  }

  /** With reordering, writing what somebody reads separates nobody. */
  lemma AntidependenciesShareABlock(o: Options, g: Graph, xs: seq<Txn>)
    requires o.reordering && Ascending(xs) && xs != [] && IdsBelow(xs, |g|)
    requires forall y, e :: y in xs && e in g[y.id] ==> e.conflict == WAR
    ensures Schedule(o, g, xs) == [xs]
  {
    OneBlockIff(o, g, xs);
  }

  // ------------------------------------------------------------------
  // The edges the workers have drawn so far
  // ------------------------------------------------------------------

  function IdAt(xs: seq<Txn>, i: nat): nat
    requires i < |xs|
  {
    xs[i].id
  }

  /** The workers below `id` have drawn their rows, and worker `id` its rows below `upto`. */
  ghost predicate Labelled(g: Graph, xs: seq<Txn>, rows: seq<seq<Edge>>, width: nat, id: nat, upto: nat)
    requires width > 0 && |rows| == |xs| && IdsBelow(xs, |g|)
  {
    forall k :: 0 <= k < |xs| ==>
      g[IdAt(xs, k)] == if WorkerOf(k, width) < id || (WorkerOf(k, width) == id && k < upto) then rows[k] else []
  }

  lemma LabelledStart(g: Graph, xs: seq<Txn>, rows: seq<seq<Edge>>, width: nat, id: nat)
    requires id < width && |rows| == |xs| && IdsBelow(xs, |g|) && Labelled(g, xs, rows, width, id, 0)
    ensures Labelled(g, xs, rows, width, id, id)
  {
    WorkerStarts(id, width);
  }

  lemma LabelledEnd(g: Graph, xs: seq<Txn>, rows: seq<seq<Edge>>, width: nat, id: nat, upto: nat)
    requires id < width && |rows| == |xs| && IdsBelow(xs, |g|) && Labelled(g, xs, rows, width, id, upto) && upto >= |xs|
    ensures Labelled(g, xs, rows, width, id + 1, 0)
  {}

  lemma LabelledOneMore(g: Graph, xs: seq<Txn>, rows: seq<seq<Edge>>, width: nat, id: nat, i: nat, edges: seq<Edge>)
    requires id < width && |rows| == |xs| && Ascending(xs) && IdsBelow(xs, |g|) && Labelled(g, xs, rows, width, id, i)
    requires i < |xs| && WorkerOf(i, width) == id && rows[i] == edges
    ensures xs[i].id < |g| && Labelled(g[xs[i].id := g[xs[i].id] + edges], xs, rows, width, id, i + width)
  {
    var g' := g[xs[i].id := g[xs[i].id] + edges];
    NextStride(i, width);
    assert g[IdAt(xs, i)] == [];
    forall k | 0 <= k < |xs|
      ensures g'[IdAt(xs, k)] == if WorkerOf(k, width) < id || (WorkerOf(k, width) == id && k < i + width) then rows[k] else []
    {
      if k < i { assert xs[k].id < xs[i].id; }
      if k > i { assert xs[i].id < xs[k].id; }
    }
  }

  // ------------------------------------------------------------------
  // The scheduler
  // ------------------------------------------------------------------

  class MicroBlockScheduler {
    const options: Options
    const workerNum: nat
    const predictor: ConflictPredictor
    var txnsToSchedule: seq<Txn>
    var txnRanges: seq<TxnQueryRanges>
    var dependencyGraph: Graph

    constructor (options: Options, workerNum: nat, predictor: ConflictPredictor)
      ensures this.options == options && this.workerNum == workerNum && this.predictor == predictor
      ensures txnsToSchedule == [] && txnRanges == [] && dependencyGraph == []
    {
      this.options := options;
      this.workerNum := workerNum;
      this.predictor := predictor;
      txnsToSchedule, txnRanges, dependencyGraph := [], [], [];
    }

    /** The ranges of every transaction are there. */
    ghost predicate Ranged()
      reads this`txnsToSchedule, this`txnRanges, predictor.summary, predictor.summary.l1, predictor.summary.l2
    {
      predictor.summary.Valid() && |txnRanges| == |txnsToSchedule|
    }

    /** The graph has a row for every id. */
    ghost predicate Prepared()
      reads this
    {
      Ascending(txnsToSchedule) && IdsBelow(txnsToSchedule, |dependencyGraph|)
    }

    /** The toxic-query knob relabels pairs at will. */
    ghost function Label(toxic: (nat, nat) -> bool, i: nat, j: nat): ConflictType
      requires Ranged() && i < |txnRanges| && j < |txnRanges|
      reads this`txnsToSchedule, this`txnRanges, predictor.summary, predictor.summary.l1, predictor.summary.l2
    {
      if toxic(i, j) then WAW else predictor.Predicted(txnRanges[i], txnRanges[j])
    }

    /** The edges from position `i` to the positions below `m`. */
    ghost function Row(toxic: (nat, nat) -> bool, i: nat, m: nat): seq<Edge>
      requires Ranged() && i < m <= |txnsToSchedule|
      reads this`txnsToSchedule, this`txnRanges, predictor.summary, predictor.summary.l1, predictor.summary.l2
    {
      if m == i + 1 then []
      else Row(toxic, i, m - 1) +
           (if Label(toxic, i, m - 1) == NONE then [] else [Edge(txnsToSchedule[m - 1].id, Label(toxic, i, m - 1))])
    }

    /** The rows of the first `n` positions. */
    ghost function Rows(toxic: (nat, nat) -> bool, n: nat): (rows: seq<seq<Edge>>)
      requires Ranged() && n <= |txnsToSchedule|
      reads this`txnsToSchedule, this`txnRanges, predictor.summary, predictor.summary.l1, predictor.summary.l2
      ensures |rows| == n
      ensures forall i :: 0 <= i < n ==> rows[i] == Row(toxic, i, |txnsToSchedule|)
    {
      if n == 0 then [] else Rows(toxic, n - 1) + [Row(toxic, n - 1, |txnsToSchedule|)]
    }

    method PrepareDependencyGraph(graphSize: nat)
      modifies this`dependencyGraph
      ensures dependencyGraph == seq(graphSize, _ => [])
    {
      dependencyGraph := seq(graphSize, _ => []);
    }

    /** The edges of one transaction, as one worker collects them. */
    method ConflictsOf(i: nat, toxic: (nat, nat) -> bool) returns (localEdges: seq<Edge>)
      requires Ranged() && i < |txnsToSchedule|
      ensures localEdges == Row(toxic, i, |txnsToSchedule|)
    {
      localEdges := [];
      for j := i + 1 to |txnsToSchedule|
        invariant localEdges == Row(toxic, i, j)
      {
        var conflict := predictor.PredictConflict(txnRanges[i], txnRanges[j]);
        if toxic(i, j) { conflict := WAW; }
        if conflict != NONE {
          localEdges := localEdges + [Edge(txnsToSchedule[j].id, conflict)];
        }
      }
    }

    method PartitionTask(id: nat, toxic: (nat, nat) -> bool)
      requires id < workerNum && Ranged() && Prepared()
      requires Labelled(dependencyGraph, txnsToSchedule, Rows(toxic, |txnsToSchedule|), workerNum, id, 0)
      modifies this`dependencyGraph
      ensures |dependencyGraph| == |old(dependencyGraph)|
      ensures Labelled(dependencyGraph, txnsToSchedule, Rows(toxic, |txnsToSchedule|), workerNum, id + 1, 0)
    {
      hide Row, Rows, Labelled, Ascending, IdsBelow;
      ghost var rows := Rows(toxic, |txnsToSchedule|);
      WorkerStarts(id, workerNum);
      LabelledStart(dependencyGraph, txnsToSchedule, rows, workerNum, id);
      var i := id;
      while i < |txnsToSchedule|
        invariant WorkerOf(i, workerNum) == id && |dependencyGraph| == |old(dependencyGraph)|
        invariant Prepared() && Labelled(dependencyGraph, txnsToSchedule, rows, workerNum, id, i)
      {
        NextStride(i, workerNum);
        var localEdges := ConflictsOf(i, toxic);
        var src := txnsToSchedule[i].id;
        LabelledOneMore(dependencyGraph, txnsToSchedule, rows, workerNum, id, i, localEdges);
        dependencyGraph := dependencyGraph[src := dependencyGraph[src] + localEdges];
        i := i + workerNum;
      }
      LabelledEnd(dependencyGraph, txnsToSchedule, rows, workerNum, id, i);
    }

    /** All the workers, each dealing with the rows of its own positions. */
    method RunPartitionPhase(toxic: (nat, nat) -> bool, graphSize: nat)
      requires workerNum > 0 && Ranged() && Ascending(txnsToSchedule) && IdsBelow(txnsToSchedule, graphSize)
      modifies this`dependencyGraph
      ensures Prepared() && AllLabelled(toxic)
    {
      PrepareDependencyGraph(graphSize);
      for id := 0 to workerNum
        invariant Prepared()
        invariant Labelled(dependencyGraph, txnsToSchedule, Rows(toxic, |txnsToSchedule|), workerNum, id, 0)
      {
        PartitionTask(id, toxic);
      }
    }

    lemma RangedIs()
      ensures Ranged() <==> predictor.summary.Valid() && |txnRanges| == |txnsToSchedule|
      ensures Prepared() ==> IdsBelow(txnsToSchedule, |dependencyGraph|)
    {}

    ghost predicate AllLabelled(toxic: (nat, nat) -> bool)
      requires Ranged() && Prepared()
      reads this, predictor.summary, predictor.summary.l1, predictor.summary.l2
    {
      forall i :: 0 <= i < |txnsToSchedule| ==> dependencyGraph[IdAt(txnsToSchedule, i)] == Row(toxic, i, |txnsToSchedule|)
    }

    lemma {:induction false} RowTells(toxic: (nat, nat) -> bool, i: nat, m: nat)
      requires Ranged() && i < m <= |txnsToSchedule|
      ensures forall j :: i < j < m && Label(toxic, i, j) != NONE ==>
                Edge(txnsToSchedule[j].id, Label(toxic, i, j)) in Row(toxic, i, m)
      ensures forall e :: e in Row(toxic, i, m) ==>
                exists j :: i < j < m && e == Edge(txnsToSchedule[j].id, Label(toxic, i, j))
      decreases m
    {
      if m > i + 1 { RowTells(toxic, i, m - 1); }
    }

    /** Once all workers are done, a pair is forbidden exactly when its label is. */
    lemma ForbidsIsLabel(toxic: (nat, nat) -> bool, i: nat, j: nat)
      requires Ranged() && Prepared() && AllLabelled(toxic)
      requires i < |txnsToSchedule| && j < |txnsToSchedule|
      ensures Forbids(options, dependencyGraph, txnsToSchedule[i], txnsToSchedule[j]) <==>
              i < j && Forbidden(options, Label(toxic, i, j))
    {
      var n, edges := |txnsToSchedule|, dependencyGraph[txnsToSchedule[i].id];
      RowTells(toxic, i, n);
      assert txnsToSchedule[i] in txnsToSchedule;
      assert edges == Row(toxic, i, n);
      assert forall k :: 0 <= k < n && txnsToSchedule[k].id == txnsToSchedule[j].id ==> k == j;
      if ForbiddenEdge(options, edges, txnsToSchedule[j].id) {
        var e :| e in edges && e.target == txnsToSchedule[j].id && Forbidden(options, e.conflict);
      }
    }

    /** The two may not share a block: relabelled, or the walks over their ranges find a conflict that counts. */
    ghost predicate Clash(toxic: (nat, nat) -> bool, ranges: seq<TxnQueryRanges>, i: nat, j: nat)
      requires predictor.summary.Valid() && i < |ranges| && j < |ranges|
      reads predictor.summary, predictor.summary.l1, predictor.summary.l2
    {
      || toxic(i, j)
      || predictor.Walk(ranges[i].write, ranges[j].write, 0, 0)
      || predictor.Walk(ranges[i].write, ranges[j].read, 0, 0)
      || (!options.reordering && predictor.Walk(ranges[i].read, ranges[j].write, 0, 0))
    }

    lemma ForbidsIsClash(toxic: (nat, nat) -> bool, i: nat, j: nat)
      requires Ranged() && Prepared() && AllLabelled(toxic)
      requires i < |txnsToSchedule| && j < |txnsToSchedule|
      ensures Forbids(options, dependencyGraph, txnsToSchedule[i], txnsToSchedule[j]) <==> i < j && Clash(toxic, txnRanges, i, j)
    {
      ForbidsIsLabel(toxic, i, j);
      hide Forbids, AllLabelled, Prepared;
    }

    /** The clash of two transactions in terms of the data that both ranges meet in. */
    lemma ClashIsMeet(toxic: (nat, nat) -> bool, ranges: seq<TxnQueryRanges>, i: nat, j: nat)
      requires predictor.summary.Valid() && i < |ranges| && j < |ranges|
      requires SortedRanges(ranges[i]) && SortedRanges(ranges[j]) && predictor.SafeTogether(ranges[i], ranges[j])
      ensures Clash(toxic, ranges, i, j) <==>
              || toxic(i, j)
              || predictor.Meet(ranges[i].write, ranges[j].write)
              || predictor.Meet(ranges[i].write, ranges[j].read)
              || (!options.reordering && predictor.Meet(ranges[i].read, ranges[j].write))
    {
      predictor.WalkIsMeet(ranges[i].write, ranges[j].write);
      predictor.WalkIsMeet(ranges[i].write, ranges[j].read);
      predictor.WalkIsMeet(ranges[i].read, ranges[j].write);
    }

    /** Somebody before transaction `j` is in the block and clashes with it. */
    ghost predicate ClashesIn(toxic: (nat, nat) -> bool, txns: seq<Txn>, ranges: seq<TxnQueryRanges>, mb: MicroBlock, j: nat)
      requires predictor.summary.Valid() && |ranges| == |txns| && j < |txns|
      reads predictor.summary, predictor.summary.l1, predictor.summary.l2
    {
      exists i: nat :: i < j && txns[i] in mb && Clash(toxic, ranges, i, j)
    }

    /** Transaction `j`, in block `b`, clashes with somebody before it in every earlier block, and with nobody before it in this one. */
    ghost predicate Fits(toxic: (nat, nat) -> bool, txns: seq<Txn>, ranges: seq<TxnQueryRanges>, schedule: seq<MicroBlock>, b: nat, j: nat)
      requires predictor.summary.Valid() && |ranges| == |txns| && b < |schedule| && j < |txns|
      reads predictor.summary, predictor.summary.l1, predictor.summary.l2
    {
      && (forall a: nat :: a < b ==> ClashesIn(toxic, txns, ranges, schedule[a], j))
      && !ClashesIn(toxic, txns, ranges, schedule[b], j)
    }

    /** Each is in the first block in which it clashes with nobody. */
    ghost predicate FirstFit(toxic: (nat, nat) -> bool, txns: seq<Txn>, ranges: seq<TxnQueryRanges>, schedule: seq<MicroBlock>)
      requires predictor.summary.Valid() && |ranges| == |txns|
      reads predictor.summary, predictor.summary.l1, predictor.summary.l2
    {
      && (forall b :: 0 <= b < |schedule| ==> schedule[b] != [])
      && forall b: nat, j: nat :: b < |schedule| && j < |txns| && txns[j] in schedule[b] ==> Fits(toxic, txns, ranges, schedule, b, j)
    }

    lemma ClashesEarlier(toxic: (nat, nat) -> bool, a: nat, b: nat, j: nat) returns (i: nat)
      requires Ranged() && Prepared() && AllLabelled(toxic) && j < |txnsToSchedule|
      requires a < b < |Schedule(options, dependencyGraph, txnsToSchedule)|
      requires txnsToSchedule[j] in Schedule(options, dependencyGraph, txnsToSchedule)[b]
      ensures i < j && txnsToSchedule[i] in Schedule(options, dependencyGraph, txnsToSchedule)[a] && Clash(toxic, txnRanges, i, j)
    {
      hide Schedule, Clash, AllLabelled, Forbids, IdsBelow;
      var y := SeparatedFromEarlier(options, dependencyGraph, txnsToSchedule, a, b, txnsToSchedule[j]);
      i :| 0 <= i < |txnsToSchedule| && txnsToSchedule[i] == y;
      ForbidsIsClash(toxic, i, j);
    }

    lemma NoClashInside(toxic: (nat, nat) -> bool, b: nat, i: nat, j: nat)
      requires Ranged() && Prepared() && AllLabelled(toxic) && i < j < |txnsToSchedule|
      requires b < |Schedule(options, dependencyGraph, txnsToSchedule)|
      requires txnsToSchedule[i] in Schedule(options, dependencyGraph, txnsToSchedule)[b]
      requires txnsToSchedule[j] in Schedule(options, dependencyGraph, txnsToSchedule)[b]
      ensures !Clash(toxic, txnRanges, i, j)
    {
      hide Schedule, Clash, AllLabelled, Forbids, IdsBelow;
      ScheduledBlocksAreGood(options, dependencyGraph, txnsToSchedule, b);
      NotSeparatedInside(options, dependencyGraph, Schedule(options, dependencyGraph, txnsToSchedule)[b], txnsToSchedule[i], txnsToSchedule[j]);
      ForbidsIsClash(toxic, i, j);
    }

    lemma ScheduledFits(toxic: (nat, nat) -> bool, schedule: seq<MicroBlock>, b: nat, j: nat)
      requires Ranged() && Prepared() && AllLabelled(toxic)
      requires schedule == Schedule(options, dependencyGraph, txnsToSchedule)
      requires b < |schedule| && j < |txnsToSchedule| && txnsToSchedule[j] in schedule[b]
      ensures Fits(toxic, txnsToSchedule, txnRanges, schedule, b, j)
    {
      RangedIs();
      hide Schedule, Clash, AllLabelled, Prepared, Ranged;
      forall a: nat | a < b
        ensures ClashesIn(toxic, txnsToSchedule, txnRanges, schedule[a], j)
      {
        var i := ClashesEarlier(toxic, a, b, j);
      }
      if i: nat :| i < j && txnsToSchedule[i] in schedule[b] && Clash(toxic, txnRanges, i, j) {
        NoClashInside(toxic, b, i, j);
        assert false;
      }
    }

    lemma ScheduleIsFirstFit(toxic: (nat, nat) -> bool)
      requires Ranged() && Prepared() && AllLabelled(toxic)
      ensures FirstFit(toxic, txnsToSchedule, txnRanges, Schedule(options, dependencyGraph, txnsToSchedule))
    {
      var schedule := Schedule(options, dependencyGraph, txnsToSchedule);
      RangedIs();
      assert Ascending(txnsToSchedule);
      hide Schedule, Fits, AllLabelled, Prepared, Ranged, Ascending, NoneForbidden;
      forall b: nat | b < |schedule|
        ensures schedule[b] != []
      {
        ScheduledBlocksAreGood(options, dependencyGraph, txnsToSchedule, b);
      }
      forall b: nat, j: nat | b < |schedule| && j < |txnsToSchedule| && txnsToSchedule[j] in schedule[b]
        ensures Fits(toxic, txnsToSchedule, txnRanges, schedule, b, j)
      {
        ScheduledFits(toxic, schedule, b, j);
      }
    }

    method ShouldPostpone(currentMb: MicroBlock, x: Txn) returns (shouldPostpone: bool)
      requires IdsBelow(currentMb, |dependencyGraph|)
      ensures shouldPostpone <==> Blocked(options, dependencyGraph, currentMb, x)
    {
      shouldPostpone := false;
      var j := 0;
      while j < |currentMb| && !shouldPostpone
        invariant 0 <= j <= |currentMb|
        invariant shouldPostpone <==> Blocked(options, dependencyGraph, currentMb[..j], x)
      {
        assert currentMb[j] in currentMb;
        var neighbors := dependencyGraph[currentMb[j].id];
        var e := 0;
        while e < |neighbors| && !shouldPostpone
          invariant 0 <= e <= |neighbors|
          invariant shouldPostpone <==> ForbiddenEdge(options, neighbors[..e], x.id)
        {
          assert neighbors[..e + 1] == neighbors[..e] + [neighbors[e]];
          if neighbors[e].target == x.id {
            if neighbors[e].conflict == WAW || neighbors[e].conflict == RAW {
              shouldPostpone := true;
            } else if !options.reordering && neighbors[e].conflict == WAR {
              shouldPostpone := true;
            }
          }
          e := e + 1;
        }
        assert currentMb[..j + 1] == currentMb[..j] + [currentMb[j]];
        assert shouldPostpone ==> Forbids(options, dependencyGraph, currentMb[j], x);
        j := j + 1;
      }
      assert shouldPostpone || currentMb[..j] == currentMb;
    }

    /**
     The first of the remaining transactions always enters the current
     micro-block, so the source's branch for an empty one is never taken.
     */
    method PartitionIntoMicroBlocks(transactionsToSchedule: seq<Txn>) returns (finalSchedule: seq<MicroBlock>)
      requires IdsBelow(transactionsToSchedule, |dependencyGraph|)
      ensures finalSchedule == Schedule(options, dependencyGraph, transactionsToSchedule)
    {
      finalSchedule := [];
      var remaining := transactionsToSchedule;
      while remaining != []
        invariant IdsBelow(remaining, |dependencyGraph|)
        invariant Schedule(options, dependencyGraph, transactionsToSchedule) ==
                  finalSchedule + Schedule(options, dependencyGraph, remaining)
        decreases |remaining|
      {
        PassSplits(options, dependencyGraph, remaining);
        var currentMb: MicroBlock, postponed: seq<Txn> := [], [];
        for i := 0 to |remaining|
          invariant (currentMb, postponed) == Pass(options, dependencyGraph, remaining[..i])
          invariant IdsBelow(currentMb, |dependencyGraph|)
        {
          var x := remaining[i];
          assert remaining[..i + 1][..i] == remaining[..i];
          var shouldPostpone := ShouldPostpone(currentMb, x);
          if shouldPostpone {
            postponed := postponed + [x];
          } else {
            currentMb := currentMb + [x];
          }
        }
        assert remaining[..|remaining|] == remaining;
        if currentMb != [] {
          finalSchedule := finalSchedule + [currentMb];
        }
        remaining := postponed;
      }
    }

    /** With the prediction off: consecutive slices of the batch. */
    method PartitionIntoFixedMicroBlocks(transactionsToSchedule: seq<Txn>, microBlockSize: nat) returns (result: seq<MicroBlock>)
      ensures microBlockSize == 0 ==> result == []
      ensures microBlockSize > 0 ==> FixedSlices(result, transactionsToSchedule, microBlockSize)
    {
      result := [];
      if transactionsToSchedule == [] || microBlockSize == 0 { return; }
      var i := 0;
      while i < |transactionsToSchedule|
        invariant i >= |transactionsToSchedule| || forall b :: 0 <= b < |result| ==> |result[b]| == microBlockSize
        invariant forall b :: 0 <= b < |result| ==> 0 < |result[b]| <= microBlockSize
        invariant forall b :: 0 <= b < |result| - 1 ==> |result[b]| == microBlockSize
        invariant Flatten(result) == transactionsToSchedule[..if i < |transactionsToSchedule| then i else |transactionsToSchedule|]
      {
        var end := if i + microBlockSize < |transactionsToSchedule| then i + microBlockSize else |transactionsToSchedule|;
        var mb: MicroBlock := transactionsToSchedule[i..end];
        FlattenAppend(result, mb);
        assert transactionsToSchedule[..end] == transactionsToSchedule[..i] + mb;
        result := result + [mb];
        i := i + microBlockSize;
      }
    }
  }

  /** The blocks are slices of the list, of that size but for the last, which may be shorter. */
  ghost predicate FixedSlices(bs: seq<MicroBlock>, xs: seq<Txn>, size: nat) {
    && Flatten(bs) == xs
    && (forall b :: 0 <= b < |bs| ==> 0 < |bs[b]| <= size)
    && (forall b :: 0 <= b < |bs| - 1 ==> |bs[b]| == size)
  }

  lemma FirstSlice(bs: seq<MicroBlock>, xs: seq<Txn>, size: nat)
    requires FixedSlices(bs, xs, size) && xs != []
    ensures bs != [] && |bs[0]| == (if size < |xs| then size else |xs|) && bs[0] == xs[..|bs[0]|]
    ensures FixedSlices(bs[1..], xs[|bs[0]|..], size)
  {
    assert Flatten(bs) == bs[0] + Flatten(bs[1..]);
    if |bs| == 1 { assert Flatten(bs[1..]) == []; }
  }

  /** Block `b` begins at position b * size. */
  lemma {:induction false} SliceAt(bs: seq<MicroBlock>, xs: seq<Txn>, size: nat, b: nat, r: nat)
    requires FixedSlices(bs, xs, size) && b < |bs| && r < |bs[b]|
    ensures b * size + r < |xs| && bs[b][r] == xs[b * size + r]
    decreases b
  {
    SliceNotEmpty(bs, xs, size);
    FirstSlice(bs, xs, size);
    if b > 0 {
      assert |bs[0]| == size && bs[1..][b - 1] == bs[b];
      hide FixedSlices;
      SliceAt(bs[1..], xs[size..], size, b - 1, r);
      assert (b - 1) * size + r + size == b * size + r;
    }
  }

  lemma SliceNotEmpty(bs: seq<MicroBlock>, xs: seq<Txn>, size: nat)
    requires FixedSlices(bs, xs, size) && bs != []
    ensures xs != []
  {
    assert Flatten(bs)[0] == bs[0][0];
  }

  /** A list that is no longer than a slice is one block. */
  lemma OneSlice(bs: seq<MicroBlock>, xs: seq<Txn>, size: nat)
    requires FixedSlices(bs, xs, size) && 0 < |xs| <= size
    ensures bs == [xs]
  {
    FirstSlice(bs, xs, size);
    if bs[1..] != [] { SliceNotEmpty(bs[1..], xs[|bs[0]|..], size); }
    assert bs == [bs[0]] + bs[1..] && xs[..|xs|] == xs;
  }

  lemma {:induction false} FlattenAppend(bs: seq<MicroBlock>, mb: MicroBlock)
    ensures Flatten(bs + [mb]) == Flatten(bs) + mb
    decreases |bs|
  {
    if bs == [] {
      assert [mb][1..] == [];
    } else {
      assert (bs + [mb])[1..] == bs[1..] + [mb];
      FlattenAppend(bs[1..], mb);
    }
  }
}
