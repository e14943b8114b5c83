/** The initial placement of the topology view: breadth-first columns, rows within a column, and the canvas. */
module Layout {
  import opened Basics

  datatype Edge = Edge(from: string, to: string)

  datatype Point = Point(x: int, y: int)

  const NW := 128
  const NH := 54
  const CX := 184
  const RY := 66
  const PAD := 26

  function Seeds(nodes: seq<string>, rootIds: seq<string>): seq<string> {
    if rootIds != [] then rootIds else if nodes != [] then [nodes[0]] else []
  }

  // ---- walks, the independent meaning of a column ----

  /** A way from a seed to `id` along `steps` edges. */
  ghost predicate IsWalk(edges: seq<Edge>, seeds: seq<string>, walk: seq<string>) {
    && walk != [] && walk[0] in seeds
    && forall i :: 0 <= i < |walk| - 1 ==> Edge(walk[i], walk[i + 1]) in edges
  }

  ghost predicate Walked(edges: seq<Edge>, seeds: seq<string>, id: string, steps: nat) {
    exists walk :: IsWalk(edges, seeds, walk) && |walk| == steps + 1 && walk[steps] == id
  }

  /** Exactly the ids some walk reaches, each with the length of the shortest. */
  ghost predicate Shortest(edges: seq<Edge>, seeds: seq<string>, depth: map<string, nat>) {
    && (forall id :: id in depth ==> Walked(edges, seeds, id, depth[id]))
    && (forall walk :: IsWalk(edges, seeds, walk) ==> walk[|walk| - 1] in depth && depth[walk[|walk| - 1]] <= |walk| - 1)
  }

  lemma {:induction false} WalkFurther(edges: seq<Edge>, seeds: seq<string>, id: string, steps: nat, next: string)
    requires Walked(edges, seeds, id, steps) && Edge(id, next) in edges
    ensures Walked(edges, seeds, next, steps + 1)
  {
    var walk :| IsWalk(edges, seeds, walk) && |walk| == steps + 1 && walk[steps] == id;
    assert IsWalk(edges, seeds, walk + [next]);
  }

  lemma {:induction false} SeedWalked(edges: seq<Edge>, seeds: seq<string>, id: string)
    requires id in seeds
    ensures Walked(edges, seeds, id, 0)
  {
    assert IsWalk(edges, seeds, [id]);
  }

  /** Depths that grow by at most one along every edge bound every walk from below. */
  ghost predicate Closed(edges: seq<Edge>, depth: map<string, nat>, done: set<string>) {
    forall u, v :: u in done && Edge(u, v) in edges ==> u in depth && v in depth && depth[v] <= depth[u] + 1
  }

  lemma {:induction false} WalkBounded(edges: seq<Edge>, seeds: seq<string>, depth: map<string, nat>, walk: seq<string>)
    requires IsWalk(edges, seeds, walk) && Closed(edges, depth, depth.Keys)
    requires forall id :: id in seeds ==> id in depth && depth[id] == 0
    ensures walk[|walk| - 1] in depth && depth[walk[|walk| - 1]] <= |walk| - 1
  {
    if |walk| > 1 {
      var k := |walk| - 1;
      var init := walk[..k];
      assert forall i :: 0 <= i < k - 1 ==> Edge(init[i], init[i + 1]) == Edge(walk[i], walk[i + 1]);
      WalkBounded(edges, seeds, depth, init);
      assert Edge(walk[k - 1], walk[k]) in edges;
    }
  }

  // ---- the search ----

  ghost predicate Adjacent(out: map<string, seq<string>>, edges: seq<Edge>) {
    forall u, v :: Edge(u, v) in edges <==> u in out && v in out[u]
  }

  method Adjacency(edges: seq<Edge>) returns (out: map<string, seq<string>>)
    ensures Adjacent(out, edges)
  {
    out := map[];
    for i := 0 to |edges|
      invariant Adjacent(out, edges[..i])
    {
      var e := edges[i];
      assert edges[..i + 1] == edges[..i] + [e];
      if e.from in out {
        out := out[e.from := out[e.from] + [e.to]];
      } else {
        out := out[e.from := [e.to]];
      }
    }
    assert edges[..|edges|] == edges;
  }

  predicate Sorted(queue: seq<string>, depth: map<string, nat>) {
    && (forall i :: 0 <= i < |queue| ==> queue[i] in depth)
    && forall i, j :: 0 <= i < j < |queue| ==> depth[queue[i]] <= depth[queue[j]]
  }

  /** What is queued is found but not visited. */
  ghost predicate Queued(depth: map<string, nat>, queue: seq<string>, done: set<string>) {
    && NoDuplicates(queue)
    && (forall id :: id in depth <==> id in done || id in queue)
    && (forall id :: id in queue ==> id !in done)
  }

  /** What is found was reached by a walk of that length. */
  ghost predicate Found(edges: seq<Edge>, seeds: seq<string>, depth: map<string, nat>) {
    && (forall id :: id in depth ==> Walked(edges, seeds, id, depth[id]))
    && (forall id :: id in depth ==> id in Universe(edges, seeds))
  }

  /** Between two visits, the queue holds the rest of one layer and the start of the next. */
  ghost predicate Searching(edges: seq<Edge>, seeds: seq<string>, depth: map<string, nat>, queue: seq<string>, done: set<string>) {
    && Sorted(queue, depth) && Queued(depth, queue, done) && Found(edges, seeds, depth)
    && Closed(edges, depth, done)
    && (queue != [] ==> forall id :: id in depth ==> depth[id] <= depth[queue[0]] + 1)
  }

  function Universe(edges: seq<Edge>, seeds: seq<string>): set<string> {
    (set id | id in seeds) + (set e | e in edges :: e.to)
  }

  /** The first loop: every seed once, in its own order, at depth 0. */
  method Start(edges: seq<Edge>, seeds: seq<string>) returns (depth: map<string, nat>, queue: seq<string>)
    ensures Searching(edges, seeds, depth, queue, {})
    ensures forall id :: id in depth <==> id in seeds
    ensures forall id :: id in depth ==> depth[id] == 0
  {
    depth, queue := map[], [];
    for i := 0 to |seeds|
      invariant NoDuplicates(queue)
      invariant forall id :: id in depth <==> id in queue
      invariant forall id :: id in depth <==> id in seeds[..i]
      invariant forall id :: id in depth ==> depth[id] == 0
    {
      assert seeds[..i + 1] == seeds[..i] + [seeds[i]];
      if seeds[i] !in depth {
        depth := depth[seeds[i] := 0];
        queue := queue + [seeds[i]];
      }
    }
    assert seeds[..|seeds|] == seeds;
    forall id | id in depth
      ensures Walked(edges, seeds, id, depth[id])
    {
      SeedWalked(edges, seeds, id);
    }
  }

  /** While the neighbours of a visited id at depth d are looked at. */
  ghost predicate Visiting(edges: seq<Edge>, seeds: seq<string>, depth: map<string, nat>, queue: seq<string>, done: set<string>, d: nat) {
    && Sorted(queue, depth) && Queued(depth, queue, done) && Found(edges, seeds, depth)
    && InLayers(depth, queue, d)
  }

  ghost predicate InLayers(depth: map<string, nat>, queue: seq<string>, d: nat)
    requires forall i :: 0 <= i < |queue| ==> queue[i] in depth
  {
    && (forall i :: 0 <= i < |queue| ==> d <= depth[queue[i]])
    && (forall id :: id in depth ==> depth[id] <= d + 1)
  }

  lemma {:induction false} FoundOne(
    edges: seq<Edge>, seeds: seq<string>, depth: map<string, nat>, queue: seq<string>, done: set<string>, id: string, d: nat, next: string)
    requires Visiting(edges, seeds, depth, queue, done, d)
    requires id in depth && depth[id] == d && Edge(id, next) in edges && next !in depth
    ensures Visiting(edges, seeds, depth[next := d + 1], queue + [next], done, d)
  {
    WalkFurther(edges, seeds, id, d, next);
    assert Edge(id, next).to in Universe(edges, seeds);
  }

  method Visit(
    edges: seq<Edge>, seeds: seq<string>, before: map<string, nat>, waiting: seq<string>, ghost done: set<string>, id: string,
    neighbours: seq<string>)
    returns (depth: map<string, nat>, queue: seq<string>)
    requires id in before && Visiting(edges, seeds, before, waiting, done, before[id])
    requires forall nb :: nb in neighbours ==> Edge(id, nb) in edges
    ensures Visiting(edges, seeds, depth, queue, done, before[id])
    ensures before.Keys <= depth.Keys && forall other :: other in before ==> depth[other] == before[other]
    ensures forall nb :: nb in neighbours ==> nb in depth
  {
    depth, queue := before, waiting;
    for i := 0 to |neighbours|
      invariant Visiting(edges, seeds, depth, queue, done, before[id])
      invariant before.Keys <= depth.Keys && forall other :: other in before ==> depth[other] == before[other]
      invariant forall k :: 0 <= k < i ==> neighbours[k] in depth
    {
      var nb := neighbours[i];
      if nb !in depth {
        FoundOne(edges, seeds, depth, queue, done, id, before[id], nb);
        depth := depth[nb := before[id] + 1];
        queue := queue + [nb];
      }
    }
  }

  lemma {:induction false} Shifted(
    edges: seq<Edge>, seeds: seq<string>, depth: map<string, nat>, queue: seq<string>, done: set<string>)
    requires Searching(edges, seeds, depth, queue, done) && queue != []
    ensures Visiting(edges, seeds, depth, queue[1..], done + {queue[0]}, depth[queue[0]])
    ensures queue[0] !in done
  {
    QueueShifted(depth, queue, done);
  }

  lemma {:induction false} QueueShifted(depth: map<string, nat>, queue: seq<string>, done: set<string>)
    requires queue != [] && Sorted(queue, depth) && Queued(depth, queue, done)
    ensures Sorted(queue[1..], depth) && Queued(depth, queue[1..], done + {queue[0]})
    ensures queue[0] !in done && forall i :: 0 <= i < |queue[1..]| ==> depth[queue[0]] <= depth[queue[1..][i]]
  {
    var rest := queue[1..];
    assert queue == [queue[0]] + rest;
    assert forall i :: 0 <= i < |rest| ==> rest[i] == queue[i + 1];
    assert queue[0] in queue;
  }

  lemma {:induction false} Visited(
    edges: seq<Edge>, seeds: seq<string>, before: map<string, nat>, done: set<string>, id: string,
    depth: map<string, nat>, queue: seq<string>)
    requires id in before && Closed(edges, before, done)
    requires Visiting(edges, seeds, depth, queue, done + {id}, before[id])
    requires before.Keys <= depth.Keys && forall other :: other in before ==> depth[other] == before[other]
    requires forall v :: Edge(id, v) in edges ==> v in depth
    ensures Searching(edges, seeds, depth, queue, done + {id})
  {
  }

  lemma {:induction false} SearchedAll(edges: seq<Edge>, seeds: seq<string>, depth: map<string, nat>, done: set<string>)
    requires Searching(edges, seeds, depth, [], done)
    requires AtZero(seeds, depth)
    ensures Shortest(edges, seeds, depth)
  {
    assert done == depth.Keys;
    forall walk | IsWalk(edges, seeds, walk)
      ensures walk[|walk| - 1] in depth && depth[walk[|walk| - 1]] <= |walk| - 1
    {
      WalkBounded(edges, seeds, depth, walk);
    }
  }

  /** One round of the second loop: the front of the queue is visited. */
  method Round(
    edges: seq<Edge>, seeds: seq<string>, out: map<string, seq<string>>, before: map<string, nat>, waiting: seq<string>,
    ghost done: set<string>)
    returns (depth: map<string, nat>, queue: seq<string>)
    requires Adjacent(out, edges) && waiting != [] && Searching(edges, seeds, before, waiting, done)
    ensures Searching(edges, seeds, depth, queue, done + {waiting[0]})
    ensures AtZero(seeds, before) ==> AtZero(seeds, depth)
    ensures Unvisited(edges, seeds, done + {waiting[0]}) < Unvisited(edges, seeds, done)
  {
    var id := waiting[0];
    Shifted(edges, seeds, before, waiting, done);
    depth, queue := Visit(edges, seeds, before, waiting[1..], done + {id}, id, if id in out then out[id] else []);
    Visited(edges, seeds, before, done, id, depth, queue);
    Fewer(Universe(edges, seeds) - done, Universe(edges, seeds) - (done + {id}), id);
  }

  predicate AtZero(seeds: seq<string>, depth: map<string, nat>) {
    forall id :: id in seeds ==> id in depth && depth[id] == 0
  }

  function Unvisited(edges: seq<Edge>, seeds: seq<string>, done: set<string>): nat {
    |Universe(edges, seeds) - done|
  }

  lemma {:induction false} Fewer(a: set<string>, b: set<string>, x: string)
    requires b == a - {x} && x in a
    ensures |b| < |a|
  {
  }

  method Search(edges: seq<Edge>, seeds: seq<string>) returns (depth: map<string, nat>)
    ensures Shortest(edges, seeds, depth)
  {
    var out := Adjacency(edges);
    var queue;
    depth, queue := Start(edges, seeds);
    ghost var done := {};
    while queue != []
      invariant Searching(edges, seeds, depth, queue, done)
      invariant AtZero(seeds, depth)
      decreases Unvisited(edges, seeds, done)
    {
      ghost var id := queue[0];
      depth, queue := Round(edges, seeds, out, depth, queue, done);
      done := done + {id};
    }
    SearchedAll(edges, seeds, depth, done);
  }

  // ---- columns ----

  /** The largest depth given so far, 0 when there is none. */
  ghost predicate IsLargest(depth: map<string, nat>, m: nat) {
    && (forall id :: id in depth ==> depth[id] <= m)
    && (m == 0 || exists id :: id in depth && depth[id] == m)
  }

  method LargestDepth(depth: map<string, nat>) returns (m: nat)
    ensures IsLargest(depth, m)
  {
    m := 0;
    var pending := depth.Keys;
    while pending != {}
      invariant pending <= depth.Keys
      invariant forall id :: id in depth && id !in pending ==> depth[id] <= m
      invariant m == 0 || exists id :: id in depth && depth[id] == m
    {
      var id :| id in pending;
      if depth[id] > m {
        m := depth[id];
      }
      pending := pending - {id};
    }
  }

  /** Nodes no walk reaches share one column beyond all the others. */
  ghost predicate Completed(reach: map<string, nat>, nodes: seq<string>, beyond: nat, depth: map<string, nat>) {
    && (forall id :: id in depth <==> id in reach || id in nodes)
    && (forall id :: id in depth ==> depth[id] == if id in reach then reach[id] else beyond)
  }

  method CompleteDepths(reach: map<string, nat>, nodes: seq<string>, beyond: nat) returns (depth: map<string, nat>)
    ensures Completed(reach, nodes, beyond, depth) && HasDepths(nodes, depth)
  {
    depth := reach;
    for i := 0 to |nodes|
      invariant Completed(reach, nodes[..i], beyond, depth)
    {
      assert nodes[..i + 1] == nodes[..i] + [nodes[i]];
      if nodes[i] !in depth {
        depth := depth[nodes[i] := beyond];
      }
    }
    assert nodes[..|nodes|] == nodes;
  }

  predicate HasDepths(nodes: seq<string>, depth: map<string, nat>) {
    forall i :: 0 <= i < |nodes| ==> nodes[i] in depth
  }

  /** The nodes of a column, in the order given. */
  function Column(nodes: seq<string>, depth: map<string, nat>, d: nat): (r: seq<string>)
    requires HasDepths(nodes, depth)
    ensures forall id :: id in r <==> id in nodes && depth[id] == d
  {
    if nodes == [] then []
    else
      var last := nodes[|nodes| - 1];
      Column(nodes[..|nodes| - 1], depth, d) + (if depth[last] == d then [last] else [])
  }

  ghost predicate AreColumns(buckets: map<nat, seq<string>>, nodes: seq<string>, depth: map<string, nat>)
    requires HasDepths(nodes, depth)
  {
    forall d: nat :: (if d in buckets then buckets[d] else []) == Column(nodes, depth, d)
  }

  method Buckets(nodes: seq<string>, depth: map<string, nat>) returns (buckets: map<nat, seq<string>>)
    requires HasDepths(nodes, depth)
    ensures AreColumns(buckets, nodes, depth)
    ensures forall d :: d in buckets ==> buckets[d] != []
  {
    buckets := map[];
    for i := 0 to |nodes|
      invariant AreColumns(buckets, nodes[..i], depth)
      invariant forall d :: d in buckets ==> buckets[d] != []
    {
      var d := depth[nodes[i]];
      assert nodes[..i + 1][..i] == nodes[..i];
      if d in buckets {
        buckets := buckets[d := buckets[d] + [nodes[i]]];
      } else {
        buckets := buckets[d := [nodes[i]]];
      }
    }
    assert nodes[..|nodes|] == nodes;
  }

  // ---- rows and the canvas ----

  /** A node listed twice takes the later row. */
  predicate IsRow(column: seq<string>, id: string, row: nat) {
    row < |column| && column[row] == id && forall i :: row < i < |column| ==> column[i] != id
  }

  predicate PlacedIn(pos: map<string, Point>, column: seq<string>, d: nat, id: string) {
    id in pos && exists row :: 0 <= row < |column| && IsRow(column, id, row) && pos[id] == Point(PAD + d * CX, PAD + row * RY)
  }

  predicate ColumnPlaced(pos: map<string, Point>, column: seq<string>, d: nat) {
    forall id :: id in column ==> PlacedIn(pos, column, d, id)
  }

  method PlaceColumn(before: map<string, Point>, column: seq<string>, d: nat) returns (pos: map<string, Point>)
    ensures ColumnPlaced(pos, column, d)
    ensures forall id :: id in pos <==> id in before || id in column
    ensures forall id :: id in before && id !in column ==> pos[id] == before[id]
  {
    pos := before;
    for i := 0 to |column|
      invariant ColumnPlaced(pos, column[..i], d)
      invariant forall id :: id in pos <==> id in before || id in column[..i]
      invariant forall id :: id in before && id !in column[..i] ==> pos[id] == before[id]
    {
      ghost var earlier := pos;
      pos := pos[column[i] := Point(PAD + d * CX, PAD + i * RY)];
      RowAdded(earlier, pos, column[..i], column[i], d);
      assert column[..i + 1] == column[..i] + [column[i]];
    }
    assert column[..|column|] == column;
  }

  lemma {:induction false} RowAdded(before: map<string, Point>, pos: map<string, Point>, column: seq<string>, id: string, d: nat)
    requires ColumnPlaced(before, column, d) && pos == before[id := Point(PAD + d * CX, PAD + |column| * RY)]
    ensures ColumnPlaced(pos, column + [id], d)
  {
    var longer := column + [id];
    forall other | other in longer
      ensures PlacedIn(pos, longer, d, other)
    {
      if other == id {
        assert IsRow(longer, id, |column|);
      } else {
        assert other in column && PlacedIn(before, column, d, other);
        var row :| 0 <= row < |column| && IsRow(column, other, row) && before[other] == Point(PAD + d * CX, PAD + row * RY);
        assert IsRow(longer, other, row);
      }
    }
  }

  /** Every node stands in the row it has in its own column. */
  ghost predicate Placed(pos: map<string, Point>, nodes: seq<string>, depth: map<string, nat>)
    requires HasDepths(nodes, depth)
  {
    && (forall id :: id in pos <==> id in nodes)
    && (forall id :: id in nodes ==> PlacedIn(pos, Column(nodes, depth, depth[id]), depth[id], id))
  }

  /** The rightmost column in use and the longest column, at least one row. */
  ghost predicate IsExtent(nodes: seq<string>, depth: map<string, nat>, maxDepth: nat, maxRows: nat)
    requires HasDepths(nodes, depth)
  {
    && (forall id :: id in nodes ==> depth[id] <= maxDepth && |Column(nodes, depth, depth[id])| <= maxRows)
    && (maxDepth == 0 || exists id :: id in nodes && depth[id] == maxDepth)
    && maxRows >= 1
    && (maxRows == 1 || exists id :: id in nodes && |Column(nodes, depth, depth[id])| == maxRows)
  }

  /** The columns not in `pending` are placed, and nothing else is. */
  ghost predicate PlacedExcept(
    pos: map<string, Point>, nodes: seq<string>, depth: map<string, nat>, buckets: map<nat, seq<string>>, pending: set<nat>)
    requires HasDepths(nodes, depth)
  {
    && (forall id :: id in pos <==> id in nodes && depth[id] !in pending)
    && (forall d :: d in buckets && d !in pending ==> ColumnPlaced(pos, buckets[d], d))
  }

  ghost predicate ExtentExcept(buckets: map<nat, seq<string>>, pending: set<nat>, maxDepth: nat, maxRows: nat) {
    && (forall d :: d in buckets && d !in pending ==> d <= maxDepth && |buckets[d]| <= maxRows)
    && (maxDepth == 0 || maxDepth in buckets)
    && maxRows >= 1 && (maxRows == 1 || exists d :: d in buckets && |buckets[d]| == maxRows)
  }

  /** Every node is in the bucket of its depth, and only nodes of that depth are. */
  ghost predicate Filed(nodes: seq<string>, depth: map<string, nat>, buckets: map<nat, seq<string>>)
    requires HasDepths(nodes, depth)
  {
    && (forall id :: id in nodes ==> depth[id] in buckets && id in buckets[depth[id]])
    && (forall d, id :: d in buckets && id in buckets[d] ==> id in nodes && depth[id] == d)
  }

  method PlaceAll(nodes: seq<string>, depth: map<string, nat>, buckets: map<nat, seq<string>>)
    returns (pos: map<string, Point>, maxDepth: nat, maxRows: nat)
    requires HasDepths(nodes, depth) && Filed(nodes, depth, buckets)
    ensures PlacedExcept(pos, nodes, depth, buckets, {}) && ExtentExcept(buckets, {}, maxDepth, maxRows)
  {
    pos, maxDepth, maxRows := map[], 0, 1;
    var pending := buckets.Keys;
    while pending != {}
      invariant pending <= buckets.Keys
      invariant PlacedExcept(pos, nodes, depth, buckets, pending)
      invariant ExtentExcept(buckets, pending, maxDepth, maxRows)
    {
      var d :| d in pending;
      ghost var before := pos;
      pos := PlaceColumn(pos, buckets[d], d);
      ColumnAdded(before, pos, nodes, depth, buckets, pending, d);
      maxDepth := if d > maxDepth then d else maxDepth;
      maxRows := if |buckets[d]| > maxRows then |buckets[d]| else maxRows;
      pending := pending - {d};
    }
  }

  lemma {:induction false} BucketOfNode(nodes: seq<string>, depth: map<string, nat>, buckets: map<nat, seq<string>>)
    requires HasDepths(nodes, depth) && AreColumns(buckets, nodes, depth)
    ensures Filed(nodes, depth, buckets)
  {
    forall id | id in nodes
      ensures depth[id] in buckets && id in buckets[depth[id]]
    {
      assert id in Column(nodes, depth, depth[id]);
    }
    forall d, id | d in buckets && id in buckets[d]
      ensures id in nodes && depth[id] == d
    {
      assert id in Column(nodes, depth, d);
    }
  }

  lemma {:induction false} ColumnAdded(
    before: map<string, Point>, pos: map<string, Point>, nodes: seq<string>, depth: map<string, nat>,
    buckets: map<nat, seq<string>>, pending: set<nat>, d: nat)
    requires HasDepths(nodes, depth) && Filed(nodes, depth, buckets) && d in pending && d in buckets
    requires PlacedExcept(before, nodes, depth, buckets, pending)
    requires ColumnPlaced(pos, buckets[d], d)
    requires forall id :: id in pos <==> id in before || id in buckets[d]
    requires forall id :: id in before && id !in buckets[d] ==> pos[id] == before[id]
    ensures PlacedExcept(pos, nodes, depth, buckets, pending - {d})
  {
    forall other | other in buckets && other != d && other !in pending
      ensures ColumnPlaced(pos, buckets[other], other)
    {
      forall id | id in buckets[other]
        ensures PlacedIn(pos, buckets[other], other, id)
      {
        assert PlacedIn(before, buckets[other], other, id);
      }
    }
  }

  lemma {:induction false} AllPlaced(pos: map<string, Point>, nodes: seq<string>, depth: map<string, nat>, buckets: map<nat, seq<string>>)
    requires HasDepths(nodes, depth) && AreColumns(buckets, nodes, depth)
    requires PlacedExcept(pos, nodes, depth, buckets, {})
    ensures Placed(pos, nodes, depth)
  {
    BucketOfNode(nodes, depth, buckets);
    forall id | id in nodes
      ensures PlacedIn(pos, Column(nodes, depth, depth[id]), depth[id], id)
    {
      assert ColumnPlaced(pos, buckets[depth[id]], depth[id]);
      assert buckets[depth[id]] == Column(nodes, depth, depth[id]);
    }
  }

  lemma {:induction false} ExtentReached(
    nodes: seq<string>, depth: map<string, nat>, buckets: map<nat, seq<string>>, maxDepth: nat, maxRows: nat)
    requires HasDepths(nodes, depth) && AreColumns(buckets, nodes, depth) && forall d :: d in buckets ==> buckets[d] != []
    requires ExtentExcept(buckets, {}, maxDepth, maxRows)
    ensures IsExtent(nodes, depth, maxDepth, maxRows)
  {
    BucketOfNode(nodes, depth, buckets);
    forall id | id in nodes
      ensures depth[id] <= maxDepth && |Column(nodes, depth, depth[id])| <= maxRows
    {
      assert buckets[depth[id]] == Column(nodes, depth, depth[id]);
    }
    if maxDepth in buckets {
      assert buckets[maxDepth][0] in buckets[maxDepth];
    }
    if d :| d in buckets && |buckets[d]| == maxRows {
      var id := buckets[d][0];
      assert id in buckets[d] && buckets[d] == Column(nodes, depth, depth[id]);
    }
  }

  method Arrange(nodes: seq<string>, depth: map<string, nat>) returns (pos: map<string, Point>, maxDepth: nat, maxRows: nat)
    requires HasDepths(nodes, depth)
    ensures Placed(pos, nodes, depth) && IsExtent(nodes, depth, maxDepth, maxRows)
  {
    var buckets := Buckets(nodes, depth);
    BucketOfNode(nodes, depth, buckets);
    pos, maxDepth, maxRows := PlaceAll(nodes, depth, buckets);
    AllPlaced(pos, nodes, depth, buckets);
    ExtentReached(nodes, depth, buckets, maxDepth, maxRows);
  }

  datatype Layers = Layers(reach: map<string, nat>, largest: nat, depth: map<string, nat>, maxDepth: nat, maxRows: nat)

  // ---- what the picture promises ----

  /** No edge out of a reachable node advances more than one column, and what it leads to is reachable too. */
  lemma {:induction false} EdgesAdvanceOneColumn(edges: seq<Edge>, seeds: seq<string>, reach: map<string, nat>, u: string, v: string)
    requires Shortest(edges, seeds, reach) && u in reach && Edge(u, v) in edges
    ensures v in reach && reach[v] <= reach[u] + 1
  {
    WalkFurther(edges, seeds, u, reach[u], v);
    var walk :| IsWalk(edges, seeds, walk) && |walk| == reach[u] + 2 && walk[reach[u] + 1] == v;
  }

  /** Shortest depths are determined by the graph and the seeds. */
  lemma {:induction false} ShortestUnique(edges: seq<Edge>, seeds: seq<string>, a: map<string, nat>, b: map<string, nat>)
    requires Shortest(edges, seeds, a) && Shortest(edges, seeds, b)
    ensures a == b
  {
    forall id | id in a
      ensures id in b && b[id] <= a[id]
    {
      var walk :| IsWalk(edges, seeds, walk) && |walk| == a[id] + 1 && walk[a[id]] == id;
    }
    forall id | id in b
      ensures id in a && a[id] <= b[id]
    {
      var walk :| IsWalk(edges, seeds, walk) && |walk| == b[id] + 1 && walk[b[id]] == id;
    }
  }

  // ---- where a column starts and how its rows follow each other ----

  ghost predicate Reached(edges: seq<Edge>, starts: seq<string>, id: string) {
    exists steps: nat :: Walked(edges, starts, id, steps)
  }

  /** Depth 0 is for the starts alone, and a depth is for what a walk from one of them reaches. */
  lemma {:induction false} StartsFirst(edges: seq<Edge>, starts: seq<string>, reach: map<string, nat>)
    requires Shortest(edges, starts, reach)
    ensures forall id :: id in starts <==> id in reach && reach[id] == 0
    ensures forall id :: id in reach <==> Reached(edges, starts, id)
  {
    forall id | id in starts
      ensures id in reach && reach[id] == 0
    {
      SeedWalked(edges, starts, id);
      var walk :| IsWalk(edges, starts, walk) && |walk| == 1 && walk[0] == id;
    }
    forall id | id in reach && reach[id] == 0
      ensures id in starts
    {
      var walk :| IsWalk(edges, starts, walk) && |walk| == 1 && walk[0] == id;
    }
    forall id | Reached(edges, starts, id)
      ensures id in reach
    {
      var steps: nat :| Walked(edges, starts, id, steps);
      var walk :| IsWalk(edges, starts, walk) && |walk| == steps + 1 && walk[steps] == id;
    }
  }

  /** How many of the nodes before position k are in this column. */
  function Ahead(nodes: seq<string>, depth: map<string, nat>, d: nat, k: nat): nat
    requires HasDepths(nodes, depth) && k <= |nodes|
  {
    |set i | 0 <= i < k && depth[nodes[i]] == d|
  }

  lemma {:induction false} ColumnSnoc(init: seq<string>, last: string, depth: map<string, nat>, d: nat)
    requires HasDepths(init, depth) && last in depth
    ensures HasDepths(init + [last], depth)
    ensures Column(init + [last], depth, d) == Column(init, depth, d) + (if depth[last] == d then [last] else [])
  {
    assert (init + [last])[..|init|] == init;
  }

  lemma {:induction false} AheadStep(nodes: seq<string>, depth: map<string, nat>, d: nat, k: nat)
    requires HasDepths(nodes, depth) && k < |nodes|
    ensures Ahead(nodes, depth, d, k + 1) == Ahead(nodes, depth, d, k) + (if depth[nodes[k]] == d then 1 else 0)
  {
    var before := set i | 0 <= i < k && depth[nodes[i]] == d;
    var more := set i | 0 <= i < k + 1 && depth[nodes[i]] == d;
    assert more == before + (if depth[nodes[k]] == d then {k} else {});
  }

  lemma {:induction false} ColumnLength(nodes: seq<string>, depth: map<string, nat>, d: nat, k: nat)
    requires HasDepths(nodes, depth) && k <= |nodes|
    ensures HasDepths(nodes[..k], depth) && |Column(nodes[..k], depth, d)| == Ahead(nodes, depth, d, k)
  {
    if k > 0 {
      ColumnLength(nodes, depth, d, k - 1);
      AheadStep(nodes, depth, d, k - 1);
      ColumnSnoc(nodes[..k - 1], nodes[k - 1], depth, d);
      assert nodes[..k] == nodes[..k - 1] + [nodes[k - 1]];
    }
  }

  /** A longer column keeps the rows of those it does not name again. */
  lemma {:induction false} RowKept(column: seq<string>, id: string, row: nat, more: seq<string>)
    requires IsRow(column, id, row) && id !in more
    ensures IsRow(column + more, id, row)
  {
  }

  lemma {:induction false} RowUpTo(nodes: seq<string>, depth: map<string, nat>, d: nat, k: nat, j: nat)
    requires HasDepths(nodes, depth) && k < j <= |nodes| && nodes[k] !in nodes[k + 1..] && depth[nodes[k]] == d
    ensures HasDepths(nodes[..j], depth) && HasDepths(nodes[..k], depth)
    ensures IsRow(Column(nodes[..j], depth, d), nodes[k], |Column(nodes[..k], depth, d)|)
  {
    var init, last := nodes[..j - 1], nodes[j - 1];
    assert nodes[..j] == init + [last];
    ColumnSnoc(init, last, depth, d);
    if j > k + 1 {
      assert nodes[k + 1..][j - k - 2] == last;
      RowUpTo(nodes, depth, d, k, j - 1);
      RowKept(Column(init, depth, d), nodes[k], |Column(nodes[..k], depth, d)|, if depth[last] == d then [last] else []);
    }
  }

  /** The row of a node counts the nodes of its column that are listed before it. */
  lemma {:induction false} RowExactly(nodes: seq<string>, depth: map<string, nat>, k: nat)
    requires HasDepths(nodes, depth) && k < |nodes| && nodes[k] !in nodes[k + 1..]
    ensures IsRow(Column(nodes, depth, depth[nodes[k]]), nodes[k], Ahead(nodes, depth, depth[nodes[k]], k))
  {
    RowUpTo(nodes, depth, depth[nodes[k]], k, |nodes|);
    ColumnLength(nodes, depth, depth[nodes[k]], k);
    assert nodes[..|nodes|] == nodes;
  }

  /** Within a column, nodes stand in the order they are listed in, each right below the one before. */
  ghost predicate RowsInOrder(pos: map<string, Point>, nodes: seq<string>, depth: map<string, nat>)
    requires HasDepths(nodes, depth)
  {
    forall k :: 0 <= k < |nodes| && nodes[k] !in nodes[k + 1..] ==>
      && nodes[k] in pos
      && pos[nodes[k]] == Point(PAD + depth[nodes[k]] * CX, PAD + Ahead(nodes, depth, depth[nodes[k]], k) * RY)
  }

  lemma {:induction false} PlacedInOrder(pos: map<string, Point>, nodes: seq<string>, depth: map<string, nat>)
    requires HasDepths(nodes, depth) && Placed(pos, nodes, depth)
    ensures RowsInOrder(pos, nodes, depth)
  {
    forall k | 0 <= k < |nodes| && nodes[k] !in nodes[k + 1..]
      ensures pos[nodes[k]] == Point(PAD + depth[nodes[k]] * CX, PAD + Ahead(nodes, depth, depth[nodes[k]], k) * RY)
    {
      var row := RowOf(pos, nodes, depth, nodes[k]);
      RowExactly(nodes, depth, k);
    }
  }

  predicate Apart(a: Point, b: Point) {
    a.x + NW < b.x || b.x + NW < a.x || a.y + NH < b.y || b.y + NH < a.y
  }

  /** The boxes of two different nodes never touch. */
  lemma {:induction false} BoxesApart(pos: map<string, Point>, nodes: seq<string>, depth: map<string, nat>, a: string, b: string)
    requires HasDepths(nodes, depth) && Placed(pos, nodes, depth)
    requires a in nodes && b in nodes && a != b
    ensures Apart(pos[a], pos[b])
  {
    var rowA := RowOf(pos, nodes, depth, a);
    var rowB := RowOf(pos, nodes, depth, b);
    SlotsApart(depth[a], rowA, depth[b], rowB);
  }

  lemma {:induction false} SlotsApart(c: nat, row: nat, d: nat, other: nat)
    requires c != d || row != other
    ensures Apart(Point(PAD + c * CX, PAD + row * RY), Point(PAD + d * CX, PAD + other * RY))
  {
  }

  lemma {:induction false} RowOf(pos: map<string, Point>, nodes: seq<string>, depth: map<string, nat>, id: string) returns (row: nat)
    requires HasDepths(nodes, depth) && Placed(pos, nodes, depth) && id in nodes
    ensures IsRow(Column(nodes, depth, depth[id]), id, row)
    ensures pos[id] == Point(PAD + depth[id] * CX, PAD + row * RY)
  {
    assert PlacedIn(pos, Column(nodes, depth, depth[id]), depth[id], id);
    row :| 0 <= row < |Column(nodes, depth, depth[id])| && IsRow(Column(nodes, depth, depth[id]), id, row)
           && pos[id] == Point(PAD + depth[id] * CX, PAD + row * RY);
  }

  /** Every box lies on the canvas, with the margin on all four sides. */
  lemma {:induction false} BoxOnCanvas(
    pos: map<string, Point>, nodes: seq<string>, depth: map<string, nat>, maxDepth: nat, maxRows: nat, id: string)
    requires HasDepths(nodes, depth) && Placed(pos, nodes, depth) && IsExtent(nodes, depth, maxDepth, maxRows)
    requires id in nodes
    ensures PAD <= pos[id].x && pos[id].x + NW + PAD <= PAD * 2 + maxDepth * CX + NW
    ensures PAD <= pos[id].y && pos[id].y + NH + PAD <= PAD * 2 + (maxRows - 1) * RY + NH
  {
    var row := RowOf(pos, nodes, depth, id);
  }

  predicate OnCanvas(p: Point, vw: int, vh: int) {
    PAD <= p.x && p.x + NW + PAD <= vw && PAD <= p.y && p.y + NH + PAD <= vh
  }

  /** Every node and nothing else has a box, the boxes are apart, and the canvas holds them with a margin. */
  ghost predicate IsPicture(pos: map<string, Point>, nodes: seq<string>, vw: int, vh: int) {
    && (forall id :: id in pos <==> id in nodes)
    && (forall id :: id in pos ==> OnCanvas(pos[id], vw, vh))
    && (forall a, b :: a in pos && b in pos && a != b ==> Apart(pos[a], pos[b]))
  }

  lemma {:induction false} PlacedIsPicture(
    pos: map<string, Point>, nodes: seq<string>, depth: map<string, nat>, maxDepth: nat, maxRows: nat)
    requires HasDepths(nodes, depth) && Placed(pos, nodes, depth) && IsExtent(nodes, depth, maxDepth, maxRows)
    ensures IsPicture(pos, nodes, PAD * 2 + maxDepth * CX + NW, PAD * 2 + (maxRows - 1) * RY + NH)
  {
    forall id | id in pos
      ensures OnCanvas(pos[id], PAD * 2 + maxDepth * CX + NW, PAD * 2 + (maxRows - 1) * RY + NH)
    {
      BoxOnCanvas(pos, nodes, depth, maxDepth, maxRows, id);
    }
    forall a, b | a in pos && b in pos && a != b
      ensures Apart(pos[a], pos[b])
    {
      BoxesApart(pos, nodes, depth, a, b);
    }
  }

  // ---- the whole layout ----

  /** The starts are the roots or, where none are given, the first node. */
  ghost predicate StartsAt(nodes: seq<string>, edges: seq<Edge>, rootIds: seq<string>, reach: map<string, nat>) {
    && (rootIds != [] ==> Shortest(edges, rootIds, reach))
    && (rootIds == [] && nodes != [] ==> Shortest(edges, nodes[..1], reach))
    && (rootIds == [] && nodes == [] ==> reach == map[])
  }

  /** The first column holds exactly the roots, and short of the last one the columns hold exactly what walks from them
      reach. */
  ghost predicate RootsFirst(nodes: seq<string>, edges: seq<Edge>, rootIds: seq<string>, layers: Layers)
    requires HasDepths(nodes, layers.depth)
  {
    forall id :: id in nodes ==>
      && (layers.depth[id] == 0 <==> id in rootIds)
      && (layers.depth[id] <= layers.largest <==> Reached(edges, rootIds, id))
  }

  lemma {:induction false} RootsAreFirst(nodes: seq<string>, edges: seq<Edge>, rootIds: seq<string>, layers: Layers)
    requires Shortest(edges, rootIds, layers.reach) && IsLargest(layers.reach, layers.largest)
    requires Completed(layers.reach, nodes, layers.largest + 1, layers.depth) && HasDepths(nodes, layers.depth)
    ensures RootsFirst(nodes, edges, rootIds, layers)
  {
    StartsFirst(edges, rootIds, layers.reach);
  }

  lemma {:induction false} NothingReached(edges: seq<Edge>, reach: map<string, nat>)
    requires Shortest(edges, [], reach)
    ensures reach == map[]
  {
    assert forall id, steps: nat :: !Walked(edges, [], id, steps);
  }

  lemma {:induction false} SeedsAreStarts(nodes: seq<string>, edges: seq<Edge>, rootIds: seq<string>, layers: Layers)
    requires Shortest(edges, Seeds(nodes, rootIds), layers.reach) && IsLargest(layers.reach, layers.largest)
    requires Completed(layers.reach, nodes, layers.largest + 1, layers.depth) && HasDepths(nodes, layers.depth)
    ensures StartsAt(nodes, edges, rootIds, layers.reach)
    ensures rootIds != [] ==> RootsFirst(nodes, edges, rootIds, layers)
  {
    if rootIds != [] {
      RootsAreFirst(nodes, edges, rootIds, layers);
    } else if nodes == [] {
      NothingReached(edges, layers.reach);
    } else {
      assert nodes[..1] == [nodes[0]];
    }
  }

  /** `layoutGraph`. */
  method LayoutGraph(nodes: seq<string>, edges: seq<Edge>, rootIds: seq<string>)
    returns (pos: map<string, Point>, vw: int, vh: int, ghost layers: Layers)
    ensures StartsAt(nodes, edges, rootIds, layers.reach)
    ensures IsLargest(layers.reach, layers.largest)
    ensures Completed(layers.reach, nodes, layers.largest + 1, layers.depth) && HasDepths(nodes, layers.depth)
    ensures rootIds != [] ==> RootsFirst(nodes, edges, rootIds, layers)
    ensures Placed(pos, nodes, layers.depth) && RowsInOrder(pos, nodes, layers.depth)
    ensures IsExtent(nodes, layers.depth, layers.maxDepth, layers.maxRows)
    ensures IsPicture(pos, nodes, vw, vh)
    ensures vw == PAD * 2 + layers.maxDepth * CX + NW && vh == PAD * 2 + (layers.maxRows - 1) * RY + NH
  {
    var reach := Search(edges, Seeds(nodes, rootIds));
    var largest := LargestDepth(reach);
    var depth := CompleteDepths(reach, nodes, largest + 1);
    var maxDepth, maxRows;
    pos, vw, vh, maxDepth, maxRows := Draw(nodes, depth);
    layers := Layers(reach, largest, depth, maxDepth, maxRows);
    SeedsAreStarts(nodes, edges, rootIds, layers);
  }

  /** The boxes and the canvas around them. */
  method Draw(nodes: seq<string>, depth: map<string, nat>)
    returns (pos: map<string, Point>, vw: int, vh: int, maxDepth: nat, maxRows: nat)
    requires HasDepths(nodes, depth)
    ensures Placed(pos, nodes, depth) && RowsInOrder(pos, nodes, depth) && IsExtent(nodes, depth, maxDepth, maxRows)
    ensures IsPicture(pos, nodes, vw, vh)
    ensures vw == PAD * 2 + maxDepth * CX + NW && vh == PAD * 2 + (maxRows - 1) * RY + NH
  {
    pos, maxDepth, maxRows := Arrange(nodes, depth);
    vw, vh := PAD * 2 + maxDepth * CX + NW, PAD * 2 + (maxRows - 1) * RY + NH;
    PlacedIsPicture(pos, nodes, depth, maxDepth, maxRows);
    PlacedInOrder(pos, nodes, depth);
  }
}
