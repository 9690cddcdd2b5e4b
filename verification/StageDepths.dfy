/** Stage depths of the live progress display: breadth-first search from the stages nothing
    consumes, over any snapshot, and the order the grid lists stages in. */
module StageDepths {

  /** For each stage the indexes of the stages feeding it, as reported: possibly out of range,
      shared, repeated or cyclic. */
  type Graph = seq<seq<int>>

  predicate Edge(g: Graph, consumer: int, producer: int) {
    0 <= consumer < |g| && 0 <= producer < |g| && producer in g[consumer]
  }

  predicate Root(g: Graph, stage: int) {
    0 <= stage < |g| && forall c :: 0 <= c < |g| ==> stage !in g[c]
  }

  /** A path of d producer edges leads from a root to the stage. */
  ghost predicate ReachedIn(g: Graph, d: nat, stage: int) {
    if d == 0 then Root(g, stage) else exists c :: Edge(g, c, stage) && ReachedIn(g, d - 1, c)
  }

  ghost predicate Reachable(g: Graph, stage: int) {
    exists d: nat :: ReachedIn(g, d, stage)
  }

  ghost function Least(g: Graph, stage: int, d: nat): (least: nat)
    requires ReachedIn(g, d, stage)
    ensures ReachedIn(g, least, stage) && forall k: nat :: k < least ==> !ReachedIn(g, k, stage)
  {
    if k: nat :| k < d && ReachedIn(g, k, stage) then Least(g, stage, k) else d
  }

  /** The length of a shortest path from a root, or 0 for a stage no root leads to. */
  ghost function Depth(g: Graph, stage: int): (depth: nat)
    ensures Reachable(g, stage) ==>
              ReachedIn(g, depth, stage) && forall k: nat :: ReachedIn(g, k, stage) ==> depth <= k
    ensures !Reachable(g, stage) ==> depth == 0
  {
    if d: nat :| ReachedIn(g, d, stage) then Least(g, stage, d) else 0
  }

  predicate NoDuplicates(s: seq<int>) {
    forall i, j :: 0 <= i < j < |s| ==> s[i] != s[j]
  }

  lemma {:induction false} Append(s: seq<int>, x: int)
    requires NoDuplicates(s) && x !in s
    ensures NoDuplicates(s + [x]) && forall k :: k in s + [x] <==> k in s || k == x
  {
    var t := s + [x];
    assert t[|s|] == x && forall k :: 0 <= k < |s| ==> t[k] == s[k];
    forall k | k in s ensures k in t {
      var i :| 0 <= i < |s| && s[i] == k;
      assert t[i] == k;
    }
  }

  // ----- The search.

  /** What is known of the stages enqueued so far. */
  ghost predicate Enqueued(g: Graph, queue: seq<int>, depths: seq<int>) {
    && |depths| == |g| && NoDuplicates(queue)
    && (forall k :: 0 <= k < |queue| ==> 0 <= queue[k] < |g|)
    && (forall k :: 0 <= k < |queue| ==> depths[queue[k]] >= 0 && ReachedIn(g, depths[queue[k]], queue[k]))
    && (forall i :: Root(g, i) ==> i in queue && depths[i] == 0)
    && (forall i :: 0 <= i < |g| && i !in queue ==> depths[i] == 0)
  }

  /** Depths do not decrease along the queue, and never run ahead of its head by more than one. */
  ghost predicate Layered(queue: seq<int>, depths: seq<int>, head: int)
    requires forall k :: 0 <= k < |queue| ==> 0 <= queue[k] < |depths|
  {
    && (forall i, j :: 0 <= i <= j < |queue| ==> depths[queue[i]] <= depths[queue[j]])
    && (forall i, j :: 0 <= head <= i < |queue| && 0 <= j < |queue| ==> depths[queue[j]] <= depths[queue[i]] + 1)
  }

  /** The producer is enqueued, at most one deeper than the consumer. */
  predicate Relaxed(queue: seq<int>, depths: seq<int>, consumer: int, producer: int)
  {
    0 <= producer < |depths| ==>
      producer in queue && 0 <= consumer < |depths| && depths[producer] <= depths[consumer] + 1
  }

  predicate AllRelaxed(g: Graph, queue: seq<int>, depths: seq<int>, head: nat)
    requires head <= |queue| && forall k :: 0 <= k < |queue| ==> 0 <= queue[k] < |g|
  {
    forall k, j :: 0 <= k < head && 0 <= j < |g[queue[k]]| ==> Relaxed(queue, depths, queue[k], g[queue[k]][j])
  }

  /** Once every enqueued stage has been dequeued, any path bounds the depth of its end. */
  lemma {:induction false} PathBoundsDepth(g: Graph, queue: seq<int>, depths: seq<int>, d: nat, stage: int)
    requires Enqueued(g, queue, depths) && AllRelaxed(g, queue, depths, |queue|) && ReachedIn(g, d, stage)
    ensures stage in queue && depths[stage] <= d
  {
    if d > 0 {
      var c :| Edge(g, c, stage) && ReachedIn(g, d - 1, c);
      PathBoundsDepth(g, queue, depths, d - 1, c);
      var k :| 0 <= k < |queue| && queue[k] == c;
      var j :| 0 <= j < |g[c]| && g[c][j] == stage;
      assert Relaxed(queue, depths, queue[k], g[queue[k]][j]);
    }
  }

  lemma {:induction false} SearchComplete(g: Graph, queue: seq<int>, depths: seq<int>, stage: int)
    requires Enqueued(g, queue, depths) && AllRelaxed(g, queue, depths, |queue|) && 0 <= stage < |g|
    ensures depths[stage] == Depth(g, stage)
    ensures stage in queue <==> Reachable(g, stage)
  {
    if stage in queue {
      PathBoundsDepth(g, queue, depths, Depth(g, stage), stage);
    } else if Reachable(g, stage) {
      var d: nat :| ReachedIn(g, d, stage);
      PathBoundsDepth(g, queue, depths, d, stage);
    }
  }

  /** Marks the stages some stage consumes; the others are the roots. */
  method MarkProducers(g: Graph) returns (isProducer: array<bool>)
    ensures fresh(isProducer) && isProducer.Length == |g|
    ensures forall i :: 0 <= i < |g| ==> (isProducer[i] <==> !Root(g, i))
  {
    isProducer := new bool[|g|](_ => false);
    for c := 0 to |g|
      invariant forall i :: 0 <= i < |g| ==> (isProducer[i] <==> exists k :: 0 <= k < c && i in g[k])
    {
      for j := 0 to |g[c]|
        invariant forall i :: 0 <= i < |g| ==>
                    (isProducer[i] <==> (exists k :: 0 <= k < c && i in g[k]) || i in g[c][..j])
      {
        if 0 <= g[c][j] < |g| { isProducer[g[c][j]] := true; }
      }
    }
  }

  /** Each stage's depth. The queue holds each reachable stage once, and nothing else. */
  method StageDepths(g: Graph) returns (result: seq<int>, queue: seq<int>)
    ensures |result| == |g| && forall i :: 0 <= i < |g| ==> result[i] == Depth(g, i)
    ensures NoDuplicates(queue) && forall i :: i in queue <==> 0 <= i < |g| && Reachable(g, i)
  {
    var isProducer := MarkProducers(g);
    var depths := new int[|g|](_ => 0);
    var visited := new bool[|g|](_ => false);
    queue := [];
    for i := 0 to |g|
      invariant forall k :: 0 <= k < |g| ==> depths[k] == 0 && (isProducer[k] <==> !Root(g, k))
      invariant forall k :: 0 <= k < |g| ==> (visited[k] <==> k in queue)
      invariant NoDuplicates(queue) && forall k :: k in queue <==> 0 <= k < i && Root(g, k)
    {
      if !isProducer[i] {
        visited[i] := true;
        Append(queue, i);
        queue := queue + [i];
      }
    }
    forall k | 0 <= k < |queue| ensures ReachedIn(g, 0, queue[k]) { assert queue[k] in queue; }

    var head := 0;
    while head < |queue|
      invariant 0 <= head <= |queue|
      invariant Enqueued(g, queue, depths[..]) && Layered(queue, depths[..], head)
      invariant AllRelaxed(g, queue, depths[..], head)
      invariant forall k :: 0 <= k < |g| ==> (visited[k] <==> k in queue)
      decreases |g| - head
    {
      BoundedQueue(g, queue);
      queue := Dequeue(g, depths, visited, queue, head);
      head := head + 1;
    }
    result := depths[..];
    forall i | 0 <= i < |g| ensures result[i] == Depth(g, i) && (i in queue <==> Reachable(g, i)) {
      SearchComplete(g, queue, result, i);
    }
    ReachableInRange(g);
  }

  lemma {:induction false} ReachableInRange(g: Graph)
    ensures forall i :: Reachable(g, i) ==> 0 <= i < |g|
  {
    forall i | Reachable(g, i) ensures 0 <= i < |g| {
      var d: nat :| ReachedIn(g, d, i);
    }
  }

  lemma {:induction false} BoundedQueue(g: Graph, queue: seq<int>)
    requires NoDuplicates(queue) && forall k :: 0 <= k < |queue| ==> 0 <= queue[k] < |g|
    ensures |queue| <= |g|
  {
    DistinctCount(queue);
    assert (set i | i in queue) <= Below(|g|);
    SubsetCount((set i | i in queue), Below(|g|));
  }

  function Below(n: nat): (s: set<int>)
    ensures |s| == n && forall i :: i in s <==> 0 <= i < n
  {
    if n == 0 then {} else Below(n - 1) + {n - 1}
  }

  lemma {:induction false} DistinctCount(s: seq<int>)
    requires NoDuplicates(s)
    ensures |set i | i in s| == |s|
  {
    if s != [] {
      var n := |s| - 1;
      DistinctCount(s[..n]);
      assert (set i | i in s) == (set i | i in s[..n]) + {s[n]};
    }
  }

  lemma {:induction false} SubsetCount(a: set<int>, b: set<int>)
    requires a <= b
    ensures |a| <= |b|
  {
    assert b == a + (b - a);
  }

  /** Enqueues a producer of the stage at the head of the queue, unless it is out of range or was
      enqueued before. */
  method Visit(g: Graph, depths: array<int>, visited: array<bool>, queue: seq<int>, head: nat, producer: int)
    returns (queue': seq<int>)
    requires depths.Length == |g| == visited.Length
    requires head < |queue| && Enqueued(g, queue, depths[..]) && Layered(queue, depths[..], head)
    requires AllRelaxed(g, queue, depths[..], head) && producer in g[queue[head]]
    requires forall k :: 0 <= k < |g| ==> (visited[k] <==> k in queue)
    modifies depths, visited
    ensures |queue| <= |queue'| && queue'[head] == queue[head]
    ensures Enqueued(g, queue', depths[..]) && Layered(queue', depths[..], head)
    ensures AllRelaxed(g, queue', depths[..], head) && Relaxed(queue', depths[..], queue[head], producer)
    ensures forall p :: Relaxed(queue, old(depths[..]), queue[head], p) ==> Relaxed(queue', depths[..], queue[head], p)
    ensures forall k :: 0 <= k < |g| ==> (visited[k] <==> k in queue')
  {
    queue' := queue;
    if 0 <= producer < |g| {
      if !visited[producer] {
        ghost var before := depths[..];
        EnqueueKeeps(g, queue, before, head, producer);
        Append(queue, producer);
        visited[producer] := true;
        depths[producer] := depths[queue[head]] + 1;
        assert depths[..] == Deepened(before, queue, head, producer);
        queue' := queue + [producer];
      } else {
        var k :| 0 <= k < |queue| && queue[k] == producer;
        assert depths[..][queue[k]] <= depths[..][queue[head]] + 1;
      }
    }
  }

  /** Visits the producers of the stage at the head of the queue. */
  method Dequeue(g: Graph, depths: array<int>, visited: array<bool>, queue: seq<int>, head: nat)
    returns (queue': seq<int>)
    requires depths.Length == |g| == visited.Length
    requires head < |queue| && Enqueued(g, queue, depths[..]) && Layered(queue, depths[..], head)
    requires AllRelaxed(g, queue, depths[..], head)
    requires forall k :: 0 <= k < |g| ==> (visited[k] <==> k in queue)
    modifies depths, visited
    ensures Enqueued(g, queue', depths[..]) && Layered(queue', depths[..], head + 1)
    ensures head + 1 <= |queue'| && AllRelaxed(g, queue', depths[..], head + 1)
    ensures forall k :: 0 <= k < |g| ==> (visited[k] <==> k in queue')
  {
    var consumer := queue[head];
    var producers := g[consumer];
    queue' := queue;
    for j := 0 to |producers|
      invariant head < |queue'| && queue'[head] == consumer
      invariant Enqueued(g, queue', depths[..]) && Layered(queue', depths[..], head)
      invariant AllRelaxed(g, queue', depths[..], head)
      invariant forall i :: 0 <= i < j ==> Relaxed(queue', depths[..], consumer, producers[i])
      invariant forall k :: 0 <= k < |g| ==> (visited[k] <==> k in queue')
    {
      queue' := Visit(g, depths, visited, queue', head, producers[j]);
    }
    HeadDone(g, queue', depths[..], head);
  }

  /** Once its producers are relaxed, the head moves on. */
  lemma {:induction false} HeadDone(g: Graph, queue: seq<int>, depths: seq<int>, head: nat)
    requires head < |queue| && Enqueued(g, queue, depths) && Layered(queue, depths, head)
    requires AllRelaxed(g, queue, depths, head)
    requires forall i :: 0 <= i < |g[queue[head]]| ==> Relaxed(queue, depths, queue[head], g[queue[head]][i])
    ensures Layered(queue, depths, head + 1) && AllRelaxed(g, queue, depths, head + 1)
  {
    forall k, j | 0 <= k < head + 1 && 0 <= j < |g[queue[k]]|
      ensures Relaxed(queue, depths, queue[k], g[queue[k]][j])
    {
    }
  }

  /** The depths once the head's producer is enqueued. */
  function Deepened(depths: seq<int>, queue: seq<int>, head: nat, producer: int): seq<int>
    requires head < |queue| && 0 <= queue[head] < |depths| && 0 <= producer < |depths|
  {
    depths[producer := depths[queue[head]] + 1]
  }

  lemma {:induction false} EnqueueKeeps(g: Graph, queue: seq<int>, depths: seq<int>, head: nat, producer: int)
    requires head < |queue| && Enqueued(g, queue, depths) && Layered(queue, depths, head)
    requires AllRelaxed(g, queue, depths, head)
    requires 0 <= producer < |g| && producer !in queue && producer in g[queue[head]]
    ensures var depths', queue' := Deepened(depths, queue, head, producer), queue + [producer];
            && Enqueued(g, queue', depths') && Layered(queue', depths', head) && AllRelaxed(g, queue', depths', head)
            && forall p :: Relaxed(queue, depths, queue[head], p) ==> Relaxed(queue', depths', queue[head], p)
  {
    var depths', queue' := Deepened(depths, queue, head, producer), queue + [producer];
    Append(queue, producer);
    SameDepths(depths, queue, head, producer);
    EnqueuedKeeps(g, queue, depths, head, producer);
    LayeredKeeps(queue, depths, head, producer);
    forall k, j | 0 <= k < head && 0 <= j < |g[queue'[k]]|
      ensures Relaxed(queue', depths', queue'[k], g[queue'[k]][j])
    {
      assert Relaxed(queue, depths, queue[k], g[queue[k]][j]);
    }
  }

  lemma {:induction false} SameDepths(depths: seq<int>, queue: seq<int>, head: nat, producer: int)
    requires head < |queue| && forall k :: 0 <= k < |queue| ==> 0 <= queue[k] < |depths|
    requires 0 <= producer < |depths| && producer !in queue
    ensures forall k :: 0 <= k < |queue| ==> Deepened(depths, queue, head, producer)[queue[k]] == depths[queue[k]]
    ensures forall i :: 0 <= i < |depths| && i in queue ==> Deepened(depths, queue, head, producer)[i] == depths[i]
  {
  }

  lemma {:induction false} EnqueuedKeeps(g: Graph, queue: seq<int>, depths: seq<int>, head: nat, producer: int)
    requires head < |queue| && Enqueued(g, queue, depths)
    requires 0 <= producer < |g| && producer !in queue && producer in g[queue[head]]
    ensures Enqueued(g, queue + [producer], Deepened(depths, queue, head, producer))
  {
    var depths', queue' := Deepened(depths, queue, head, producer), queue + [producer];
    Append(queue, producer);
    SameDepths(depths, queue, head, producer);
    assert Edge(g, queue[head], producer);
    assert ReachedIn(g, depths'[producer], producer);
    forall k | 0 <= k < |queue'| ensures depths'[queue'[k]] >= 0 && ReachedIn(g, depths'[queue'[k]], queue'[k]) {
      if k < |queue| { assert queue'[k] == queue[k]; }
    }
  }

  lemma {:induction false} LayeredKeeps(queue: seq<int>, depths: seq<int>, head: nat, producer: int)
    requires head < |queue| && forall k :: 0 <= k < |queue| ==> 0 <= queue[k] < |depths|
    requires 0 <= producer < |depths| && producer !in queue && Layered(queue, depths, head)
    ensures Layered(queue + [producer], Deepened(depths, queue, head, producer), head)
  {
    var depths', queue' := Deepened(depths, queue, head, producer), queue + [producer];
    SameDepths(depths, queue, head, producer);
    assert forall k :: 0 <= k < |queue| ==> depths'[queue'[k]] == depths[queue[k]];
    assert depths'[queue'[|queue|]] == depths[queue[head]] + 1;
  }

  // ----- What depths mean for neighbours.

  lemma {:induction false} ProducerReachable(g: Graph, consumer: int, producer: int)
    requires Edge(g, consumer, producer) && Reachable(g, consumer)
    ensures Reachable(g, producer) && Depth(g, producer) <= Depth(g, consumer) + 1
    ensures Depth(g, producer) > 0
  {
    assert ReachedIn(g, Depth(g, consumer) + 1, producer);
  }

  /** A reachable stage that is not a root has a consumer one level up. */
  lemma {:induction false} ShallowestConsumer(g: Graph, producer: int) returns (consumer: int)
    requires Reachable(g, producer) && !Root(g, producer)
    ensures Edge(g, consumer, producer) && Reachable(g, consumer)
    ensures Depth(g, producer) == Depth(g, consumer) + 1
  {
    var d := Depth(g, producer);
    consumer :| Edge(g, consumer, producer) && ReachedIn(g, d - 1, consumer);
    ProducerReachable(g, consumer, producer);
  }

  /** In any snapshot, a producer is one deeper than a reachable consumer exactly when it has no
      shallower reachable consumer. */
  lemma {:induction false} OneDeeperExactly(g: Graph, consumer: int, producer: int)
    requires Edge(g, consumer, producer) && Reachable(g, consumer)
    ensures Depth(g, producer) == Depth(g, consumer) + 1 <==>
            forall c :: Edge(g, c, producer) && Reachable(g, c) ==> Depth(g, consumer) <= Depth(g, c)
  {
    ProducerReachable(g, consumer, producer);
    var c := ShallowestConsumer(g, producer);
    forall c' | Edge(g, c', producer) && Reachable(g, c') ensures Depth(g, producer) <= Depth(g, c') + 1 {
      ProducerReachable(g, c', producer);
    }
  }

  /** A tree of stages: each feeds at most one stage, and a rank rises along every edge. */
  ghost predicate Tree(g: Graph, rank: seq<nat>) {
    && |rank| == |g|
    && (forall c, p :: Edge(g, c, p) ==> rank[c] < rank[p])
    && (forall c, d, p :: Edge(g, c, p) && Edge(g, d, p) ==> c == d)
  }

  lemma {:induction false} TreeReachable(g: Graph, rank: seq<nat>, stage: int)
    requires Tree(g, rank) && 0 <= stage < |g|
    ensures Reachable(g, stage)
    decreases rank[stage]
  {
    if Root(g, stage) {
      assert ReachedIn(g, 0, stage);
    } else {
      var c :| 0 <= c < |g| && stage in g[c];
      assert Edge(g, c, stage);
      TreeReachable(g, rank, c);
      ProducerReachable(g, c, stage);
    }
  }

  lemma {:induction false} TreeDepths(g: Graph, rank: seq<nat>, consumer: int, producer: int)
    requires Tree(g, rank) && Edge(g, consumer, producer)
    ensures Depth(g, producer) == Depth(g, consumer) + 1
  {
    TreeReachable(g, rank, consumer);
    OneDeeperExactly(g, consumer, producer);
  }

  // ----- The display order.

  /** The stages by depth, equal depths in index order: what a stable sort of 0..n-1 yields. */
  predicate StableOrder(order: seq<int>, depths: seq<int>, n: nat)
    requires n <= |depths|
  {
    && |order| == n && NoDuplicates(order) && (forall k :: 0 <= k < n ==> 0 <= order[k] < n)
    && forall i, j :: 0 <= i < j < n ==> Before(depths, order[i], order[j])
  }

  predicate Before(depths: seq<int>, a: int, b: int) {
    0 <= a < |depths| && 0 <= b < |depths| && (depths[a] < depths[b] || (depths[a] == depths[b] && a < b))
  }

  /** Insertion from the left, each stage after all of at most its depth: a stable sort. */
  method DisplayOrder(depths: seq<int>) returns (order: seq<int>)
    ensures StableOrder(order, depths, |depths|)
  {
    order := [];
    for i := 0 to |depths|
      invariant StableOrder(order, depths, i)
    {
      var at := i;
      while at > 0 && depths[i] < depths[order[at - 1]]
        invariant 0 <= at <= i
        invariant forall k :: at <= k < i ==> depths[i] < depths[order[k]]
      {
        at := at - 1;
      }
      InsertKeeps(order, depths, i, at);
      order := order[..at] + [i] + order[at..];
    }
  }

  lemma {:induction false} InsertKeeps(order: seq<int>, depths: seq<int>, i: nat, at: nat)
    requires i < |depths| && at <= i && StableOrder(order, depths, i)
    requires at > 0 ==> depths[order[at - 1]] <= depths[i]
    requires forall k :: at <= k < i ==> depths[i] < depths[order[k]]
    ensures StableOrder(order[..at] + [i] + order[at..], depths, i + 1)
  {
    var t := order[..at] + [i] + order[at..];
    forall a, b | 0 <= a < b < i + 1 ensures t[a] != t[b] && Before(depths, t[a], t[b]) {
      InsertedAt(order, i, at, a);
      InsertedAt(order, i, at, b);
      if b == at {
        InsertedBefore(order, depths, i, at, a);
      } else if a == at {
        InsertedBefore(order, depths, i, at, b - 1);
      } else {
        KeptBefore(order, depths, i, if a < at then a else a - 1, if b < at then b else b - 1);
      }
    }
  }

  lemma {:induction false} InsertedAt(order: seq<int>, i: nat, at: nat, k: nat)
    requires at <= |order| == i && k <= i
    ensures (order[..at] + [i] + order[at..])[k] == if k < at then order[k] else if k == at then i else order[k - 1]
  {
  }

  lemma {:induction false} KeptBefore(order: seq<int>, depths: seq<int>, i: nat, x: nat, y: nat)
    requires i <= |depths| && StableOrder(order, depths, i) && x < y < i
    ensures order[x] != order[y] && Before(depths, order[x], order[y])
  {
  }

  /** The inserted stage comes after those to its left and before those to its right. */
  lemma {:induction false} InsertedBefore(order: seq<int>, depths: seq<int>, i: nat, at: nat, k: nat)
    requires i < |depths| && at <= i && k < i && StableOrder(order, depths, i)
    requires at > 0 ==> depths[order[at - 1]] <= depths[i]
    requires forall k :: at <= k < i ==> depths[i] < depths[order[k]]
    ensures order[k] != i && if k < at then Before(depths, order[k], i) else Before(depths, i, order[k])
  {
    if k < at - 1 { assert Before(depths, order[k], order[at - 1]); }
  }

  lemma {:induction false} StableOrderHasAll(order: seq<int>, depths: seq<int>, n: nat, stage: int)
    requires n <= |depths| && StableOrder(order, depths, n) && 0 <= stage < n
    ensures stage in order
  {
    if stage !in order {
      DistinctCount(order);
      var listed := set i | i in order;
      assert listed <= Below(n) - {stage};
      SubsetCount(listed, Below(n) - {stage});
    }
  }

  /** The sort's contract leaves one order. */
  lemma {:induction false} StableOrderUnique(a: seq<int>, b: seq<int>, depths: seq<int>, n: nat, k: nat)
    requires n <= |depths| && StableOrder(a, depths, n) && StableOrder(b, depths, n) && k <= n
    ensures a[..k] == b[..k]
  {
    if k > 0 {
      StableOrderUnique(a, b, depths, n, k - 1);
      StableOrderHasAll(a, depths, n, b[k - 1]);
      StableOrderHasAll(b, depths, n, a[k - 1]);
      var i :| 0 <= i < n && a[i] == b[k - 1];
      var j :| 0 <= j < n && b[j] == a[k - 1];
      assert forall m :: 0 <= m < k - 1 ==> a[m] == a[..k - 1][m] == b[..k - 1][m] == b[m];
      assert a[..k] == a[..k - 1] + [a[k - 1]] && b[..k] == b[..k - 1] + [b[k - 1]];
    }
  }

  /** In a tree the grid lists every consumer before its producers, below it by one level. */
  lemma {:induction false} ConsumersFirst(g: Graph, rank: seq<nat>, order: seq<int>, depths: seq<int>, i: nat, j: nat)
    requires Tree(g, rank) && |depths| == |g| && forall k :: 0 <= k < |g| ==> depths[k] == Depth(g, k)
    requires StableOrder(order, depths, |g|) && i < |g| && j < |g| && Edge(g, order[i], order[j])
    ensures i < j && depths[order[j]] == depths[order[i]] + 1
  {
    TreeDepths(g, rank, order[i], order[j]);
    assert j < i ==> Before(depths, order[j], order[i]);
  }
}
