/**
 The in-memory knowledge graph: a list of typed edges, searched breadth first up to a depth bound.

 Edge weights and node labels play no part in the searches and are omitted.
 */
module GraphStore {
  import opened Common

  type Id = string
  type EdgeType = string

  datatype Edge = Edge(source: Id, target: Id, edgeType: EdgeType, properties: map<string, string>)

  datatype Direction = Outgoing | Incoming | Both

  datatype Node = Node(id: Id, properties: map<string, string>, distance: nat)

  datatype Step = Step(node: Node, via: Option<EdgeType>)

  /** What a search looks at: the edges, the type filter (empty means all) and the direction. */
  datatype Query = Query(edges: seq<Edge>, types: seq<EdgeType>, direction: Direction)

  predicate Allowed(types: seq<EdgeType>, t: EdgeType) {
    types == [] || t in types
  }

  /** The node that edge `e` leads to from `current`, if any. */
  function Neighbor(e: Edge, direction: Direction, current: Id): Option<Id> {
    match direction
    case Outgoing => if e.source == current then Some(e.target) else None
    case Incoming => if e.target == current then Some(e.source) else None
    case Both =>
      if e.source == current then Some(e.target)
      else if e.target == current then Some(e.source)
      else None
  }

  // ---------------------------------------------------------------------------------------------
  // Specification: walks and distances
  // ---------------------------------------------------------------------------------------------

  /** `e` joins `u` to `v` in the direction asked for. */
  ghost predicate Joins(e: Edge, direction: Direction, u: Id, v: Id) {
    || (direction != Incoming && e.source == u && e.target == v)
    || (direction != Outgoing && e.target == u && e.source == v)
  }

  /** Edge number `i` passes the filter and joins `u` to `v`. */
  ghost predicate Leads(q: Query, i: nat, u: Id, v: Id) {
    && i < |q.edges|
    && (q.types == [] || q.edges[i].edgeType in q.types)
    && Joins(q.edges[i], q.direction, u, v)
  }

  ghost predicate Adjacent(q: Query, u: Id, v: Id) {
    exists i: nat :: Leads(q, i, u, v)
  }

  ghost predicate IsWalk(q: Query, walk: seq<Id>) {
    walk != [] && forall k | 0 < k < |walk| :: Adjacent(q, walk[k - 1], walk[k])
  }

  /** A walk of exactly `k` edges leads from `u` to `v`. */
  ghost predicate Reaches(q: Query, u: Id, v: Id, k: nat) {
    exists walk :: IsWalk(q, walk) && |walk| == k + 1 && walk[0] == u && walk[k] == v
  }

  /** `d` is the length of a shortest walk. */
  ghost predicate IsDistance(q: Query, u: Id, v: Id, d: nat) {
    Reaches(q, u, v, d) && forall k: nat | k < d :: !Reaches(q, u, v, k)
  }

  ghost predicate ReachesWithin(q: Query, u: Id, v: Id, depth: nat) {
    exists k: nat :: k <= depth && Reaches(q, u, v, k)
  }

  /** One step, told from the fields of the edges: the filter is open or names the edge's type, and the edge
      points away from `u`, towards `u`, or either way. */
  lemma AdjacentIff(q: Query, u: Id, v: Id)
    ensures q.direction.Outgoing? ==>
              (Adjacent(q, u, v) <==> exists e | e in q.edges && (q.types == [] || e.edgeType in q.types) ::
                 e.source == u && e.target == v)
    ensures q.direction.Incoming? ==>
              (Adjacent(q, u, v) <==> exists e | e in q.edges && (q.types == [] || e.edgeType in q.types) ::
                 e.target == u && e.source == v)
    ensures q.direction.Both? ==>
              (Adjacent(q, u, v) <==> exists e | e in q.edges && (q.types == [] || e.edgeType in q.types) ::
                 (e.source == u && e.target == v) || (e.target == u && e.source == v))
  {
    if e :| e in q.edges && (q.types == [] || e.edgeType in q.types) && Joins(e, q.direction, u, v) {
      var i: nat :| i < |q.edges| && q.edges[i] == e;
      assert Leads(q, i, u, v);
    }
    if Adjacent(q, u, v) {
      var i: nat :| Leads(q, i, u, v);
      assert q.edges[i] in q.edges;
    }
  }

  /** What the search computes from an edge is the far end of the join. */
  lemma NeighborJoins(e: Edge, direction: Direction, u: Id, v: Id)
    ensures Neighbor(e, direction, u) == Some(v) <==> Joins(e, direction, u, v)
  {
  }

  lemma ReachesSelf(q: Query, u: Id)
    ensures Reaches(q, u, u, 0) && forall v | Reaches(q, u, v, 0) :: v == u
  {
    assert IsWalk(q, [u]);
  }

  lemma ReachesStep(q: Query, u: Id, v: Id, w: Id, k: nat)
    requires Reaches(q, u, v, k) && Adjacent(q, v, w)
    ensures Reaches(q, u, w, k + 1)
  {
    var walk :| IsWalk(q, walk) && |walk| == k + 1 && walk[0] == u && walk[k] == v;
    assert IsWalk(q, walk + [w]);
  }

  lemma ReachesLastStep(q: Query, u: Id, w: Id, k: nat) returns (v: Id)
    requires Reaches(q, u, w, k) && k > 0
    ensures Reaches(q, u, v, k - 1) && Adjacent(q, v, w)
  {
    var walk :| IsWalk(q, walk) && |walk| == k + 1 && walk[0] == u && walk[k] == w;
    assert IsWalk(q, walk[..k]);
    v := walk[k - 1];
  }

  lemma DistanceIsUnique(q: Query, u: Id, v: Id, d: nat, e: nat)
    requires IsDistance(q, u, v, d) && IsDistance(q, u, v, e)
    ensures d == e
  {
  }

  /** With direction `Both` the graph is undirected: walks can be turned round. */
  lemma UndirectedIsSymmetric(q: Query, u: Id, v: Id, k: nat)
    requires q.direction.Both? && Reaches(q, u, v, k)
    ensures Reaches(q, v, u, k)
  {
    ReverseWalk(q, q, u, v, k);
  }

  /** Following edges backwards undoes following them forwards. */
  lemma IncomingReversesOutgoing(q: Query, u: Id, v: Id, k: nat)
    requires q.direction.Outgoing?
    ensures Reaches(q, u, v, k) <==> Reaches(q.(direction := Incoming), v, u, k)
  {
    if Reaches(q, u, v, k) {
      ReverseWalk(q, q.(direction := Incoming), u, v, k);
    }
    if Reaches(q.(direction := Incoming), v, u, k) {
      ReverseWalk(q.(direction := Incoming), q, v, u, k);
    }
  }

  lemma ReverseWalk(q: Query, p: Query, u: Id, v: Id, k: nat)
    requires q.edges == p.edges && q.types == p.types && Reaches(q, u, v, k)
    requires q.direction.Both? == p.direction.Both? && (q.direction == p.direction ==> q.direction.Both?)
    ensures Reaches(p, v, u, k)
  {
    var walk :| IsWalk(q, walk) && |walk| == k + 1 && walk[0] == u && walk[k] == v;
    var back := seq(k + 1, i requires 0 <= i <= k => walk[k - i]);
    forall i | 0 < i < |back| ensures Adjacent(p, back[i - 1], back[i]) {
      assert Adjacent(q, walk[k - i], walk[k - i + 1]);
      var e: nat :| Leads(q, e, walk[k - i], walk[k - i + 1]);
      assert Leads(p, e, walk[k - i + 1], walk[k - i]);
    }
    assert IsWalk(p, back);
  }

  /** Edges that are added later open new walks and close none, so distances only shrink. */
  lemma AddedEdgesOnlyShorten(q: Query, more: seq<Edge>, u: Id, v: Id, d: nat)
    requires Reaches(q, u, v, d)
    ensures Reaches(q.(edges := q.edges + more), u, v, d)
    ensures forall e: nat | IsDistance(q.(edges := q.edges + more), u, v, e) :: e <= d
  {
    var longer := q.(edges := q.edges + more);
    var walk :| IsWalk(q, walk) && |walk| == d + 1 && walk[0] == u && walk[d] == v;
    forall k | 0 < k < |walk| ensures Adjacent(longer, walk[k - 1], walk[k]) {
      var i: nat :| Leads(q, i, walk[k - 1], walk[k]);
      assert Leads(longer, i, walk[k - 1], walk[k]);
    }
    assert IsWalk(longer, walk);
  }

  // ---------------------------------------------------------------------------------------------
  // The breadth-first search invariant
  // ---------------------------------------------------------------------------------------------

  type Frontier = seq<(Id, nat)>

  ghost predicate Waiting(frontier: Frontier, v: Id) {
    exists i :: 0 <= i < |frontier| && frontier[i].0 == v
  }

  lemma WaitingTail(frontier: Frontier, v: Id)
    requires frontier != []
    ensures Waiting(frontier, v) <==> v == frontier[0].0 || Waiting(frontier[1..], v)
  {
    if Waiting(frontier, v) {
      var i :| 0 <= i < |frontier| && frontier[i].0 == v;
      assert i > 0 ==> frontier[1..][i - 1].0 == v;
    }
  }

  lemma WaitingAppend(frontier: Frontier, v: Id, last: (Id, nat))
    ensures Waiting(frontier + [last], v) <==> v == last.0 || Waiting(frontier, v)
  {
    var longer := frontier + [last];
    assert longer[|frontier|] == last;
    if Waiting(frontier, v) {
      var i :| 0 <= i < |frontier| && frontier[i].0 == v;
      assert longer[i].0 == v;
    }
  }

  /** The queue: known nodes with their depths, each once, depths ascending within `low..low+1`. */
  ghost predicate QueueOk(depths: map<Id, nat>, frontier: Frontier, low: nat) {
    && (forall i | 0 <= i < |frontier| :: frontier[i].0 in depths && depths[frontier[i].0] == frontier[i].1)
    && (forall i | 0 <= i < |frontier| :: low <= frontier[i].1 <= low + 1)
    && (forall i, j | 0 <= i < j < |frontier| :: frontier[i].0 != frontier[j].0 && frontier[i].1 <= frontier[j].1)
  }

  /** All visited nodes carry their true distance, within the bound. */
  ghost predicate DepthsOk(q: Query, start: Id, bound: nat, depths: map<Id, nat>) {
    && start in depths
    && forall v | v in depths :: depths[v] <= bound && IsDistance(q, start, v, depths[v])
  }

  /** Every edge out of `u` leads to a visited node. */
  ghost predicate Expanded(q: Query, depths: map<Id, nat>, u: Id) {
    forall v | Adjacent(q, u, v) :: v in depths
  }

  ghost predicate DoneExpanded(q: Query, bound: nat, depths: map<Id, nat>, frontier: Frontier, but: set<Id>) {
    forall u | u in depths && !Waiting(frontier, u) && depths[u] < bound && u !in but :: Expanded(q, depths, u)
  }

  /** Everything within `low` edges has been visited. */
  ghost predicate LevelDone(q: Query, start: Id, depths: map<Id, nat>, low: nat) {
    forall v, k: nat | k <= low && Reaches(q, start, v, k) :: v in depths
  }

  ghost predicate SearchOk(q: Query, start: Id, bound: nat, depths: map<Id, nat>, frontier: Frontier) {
    && DepthsOk(q, start, bound, depths)
    && DoneExpanded(q, bound, depths, frontier, {})
    && (frontier != [] ==>
          QueueOk(depths, frontier, frontier[0].1) && LevelDone(q, start, depths, frontier[0].1))
  }

  lemma SearchStarts(q: Query, start: Id, bound: nat)
    ensures SearchOk(q, start, bound, map[start := 0], [(start, 0)])
  {
    ReachesSelf(q, start);
    var frontier: Frontier := [(start, 0)];
    assert frontier[0].0 == start && Waiting(frontier, start);
  }

  /** What holds while the popped node `current` is being expanded. */
  ghost predicate Expanding(q: Query, start: Id, bound: nat, depths: map<Id, nat>, frontier: Frontier,
                            current: Id, depth: nat) {
    && DepthsOk(q, start, bound, depths)
    && current in depths && depths[current] == depth && !Waiting(frontier, current)
    && DoneExpanded(q, bound, depths, frontier, {current})
    && QueueOk(depths, frontier, depth)
    && LevelDone(q, start, depths, depth)
  }

  lemma PopFront(q: Query, start: Id, bound: nat, depths: map<Id, nat>, frontier: Frontier)
    requires SearchOk(q, start, bound, depths, frontier) && frontier != []
    ensures Expanding(q, start, bound, depths, frontier[1..], frontier[0].0, frontier[0].1)
  {
    hide Reaches, Adjacent;
    var current, rest := frontier[0].0, frontier[1..];
    forall u | u in depths && !Waiting(rest, u) && depths[u] < bound && u !in {current}
      ensures Expanded(q, depths, u)
    {
      WaitingTail(frontier, u);
    }
  }

  /** A neighbour met for the first time has distance `depth + 1`. */
  lemma PushBack(q: Query, start: Id, bound: nat, depths: map<Id, nat>, frontier: Frontier,
                 current: Id, depth: nat, v: Id)
    requires Expanding(q, start, bound, depths, frontier, current, depth) && depth < bound
    requires Adjacent(q, current, v) && v !in depths
    ensures IsDistance(q, start, v, depth + 1)
    ensures Expanding(q, start, bound, depths[v := depth + 1], frontier + [(v, depth + 1)], current, depth)
  {
    hide Reaches, Adjacent;
    ReachesStep(q, start, current, v, depth);
    var depths', frontier' := depths[v := depth + 1], frontier + [(v, depth + 1)];
    forall u | u in depths' && !Waiting(frontier', u) && depths'[u] < bound && u !in {current}
      ensures Expanded(q, depths', u)
    {
      WaitingAppend(frontier, u, (v, depth + 1));
    }
    WaitingAppend(frontier, current, (v, depth + 1));
  }

  /** The node is done: expanded, or at the bound. */
  lemma FinishNode(q: Query, start: Id, bound: nat, depths: map<Id, nat>, frontier: Frontier,
                   current: Id, depth: nat)
    requires Expanding(q, start, bound, depths, frontier, current, depth)
    requires depth < bound ==> Expanded(q, depths, current)
    ensures SearchOk(q, start, bound, depths, frontier)
  {
    hide Reaches, Adjacent;
    if frontier != [] && frontier[0].1 == depth + 1 {
      forall v, k: nat | k <= depth + 1 && Reaches(q, start, v, k) ensures v in depths {
        if k == depth + 1 {
          var u := ReachesLastStep(q, start, v, k);
          assert u in depths && depths[u] <= depth;
          assert !Waiting(frontier, u);
          assert depths[frontier[0].0] <= bound;
          assert Expanded(q, depths, u);
        }
      }
    }
  }

  /** The first `k` edges out of `u` lead to known nodes. */
  ghost predicate Scanned(q: Query, u: Id, k: nat, known: set<Id>) {
    forall i: nat, v | i < k && Leads(q, i, u, v) :: v in known
  }

  lemma ScanStarts(q: Query, u: Id, known: set<Id>)
    ensures Scanned(q, u, 0, known)
  {
  }

  lemma ScanNext(q: Query, u: Id, k: nat, known: set<Id>)
    requires Scanned(q, u, k, known) && k < |q.edges|
    ensures !Allowed(q.types, q.edges[k].edgeType) ==> Scanned(q, u, k + 1, known)
    ensures Neighbor(q.edges[k], q.direction, u).None? ==> Scanned(q, u, k + 1, known)
    ensures Neighbor(q.edges[k], q.direction, u).Some? ==>
              Scanned(q, u, k + 1, known + {Neighbor(q.edges[k], q.direction, u).value})
    ensures Neighbor(q.edges[k], q.direction, u).Some? && Neighbor(q.edges[k], q.direction, u).value in known ==>
              Scanned(q, u, k + 1, known)
  {
    forall v ensures Neighbor(q.edges[k], q.direction, u) == Some(v) <==> Joins(q.edges[k], q.direction, u, v) {
      NeighborJoins(q.edges[k], q.direction, u, v);
    }
  }

  lemma ScannedIsExpanded(q: Query, u: Id, depths: map<Id, nat>)
    requires Scanned(q, u, |q.edges|, depths.Keys)
    ensures Expanded(q, depths, u)
  {
    forall v | Adjacent(q, u, v) ensures v in depths {
      var i: nat :| Leads(q, i, u, v);
    }
  }

  /** When the queue runs dry, exactly the nodes within the bound have been visited. */
  lemma {:induction false} SearchComplete(q: Query, start: Id, bound: nat, depths: map<Id, nat>, v: Id, k: nat)
    requires SearchOk(q, start, bound, depths, []) && k <= bound && Reaches(q, start, v, k)
    ensures v in depths
    decreases k
  {
    hide Reaches, Adjacent;
    if k == 0 {
      ReachesSelf(q, start);
    } else {
      var u := ReachesLastStep(q, start, v, k);
      SearchComplete(q, start, bound, depths, u, k - 1);
      assert !Waiting([], u) && depths[u] <= k - 1;
      assert Expanded(q, depths, u);
    }
  }

  /** The nodes a search can meet; each expansion that pushes removes one from those left. */
  ghost function Endpoints(edges: seq<Edge>): set<Id> {
    (set e | e in edges :: e.source) + (set e | e in edges :: e.target)
  }

  lemma JoinedIsEndpoint(e: Edge, direction: Direction, u: Id, v: Id, edges: seq<Edge>)
    requires e in edges && Joins(e, direction, u, v)
    ensures v in Endpoints(edges)
  {
  }

  // ---------------------------------------------------------------------------------------------
  // The searches
  // ---------------------------------------------------------------------------------------------

  /** How a step is justified: the start itself, or an allowed edge from a node one level closer. */
  ghost predicate StepOk(q: Query, start: Id, step: Step) {
    if step.node.distance == 0 then step == Step(Node(start, map[], 0), None)
    else exists u, i: nat ::
        && IsDistance(q, start, u, step.node.distance - 1) && Leads(q, i, u, step.node.id)
        && step.via == Some(q.edges[i].edgeType) && step.node.properties == q.edges[i].properties
  }

  /** The ball of radius `bound` around `start`: each node once, with its distance, closest first. */
  ghost predicate IsBall(q: Query, start: Id, bound: nat, steps: seq<Step>) {
    && (forall i, j | 0 <= i < j < |steps| ::
          steps[i].node.id != steps[j].node.id && steps[i].node.distance <= steps[j].node.distance)
    && (forall i | 0 <= i < |steps| ::
          steps[i].node.distance <= bound && IsDistance(q, start, steps[i].node.id, steps[i].node.distance)
          && StepOk(q, start, steps[i]))
    && (forall v :: Listed(steps, v) <==> ReachesWithin(q, start, v, bound))
  }

  ghost predicate Listed(steps: seq<Step>, v: Id) {
    exists i :: 0 <= i < |steps| && steps[i].node.id == v
  }

  ghost predicate ResultsOk(q: Query, start: Id, depths: map<Id, nat>, low: nat, steps: seq<Step>) {
    && (forall i, j | 0 <= i < j < |steps| ::
          steps[i].node.id != steps[j].node.id && steps[i].node.distance <= steps[j].node.distance)
    && (forall i | 0 <= i < |steps| :: steps[i].node.id in depths && steps[i].node.distance == depths[steps[i].node.id]
                                       && steps[i].node.distance <= low + 1 && StepOk(q, start, steps[i]))
    && (forall v | v in depths :: Listed(steps, v))
  }

  lemma ListedAppend(steps: seq<Step>, step: Step, v: Id)
    ensures Listed(steps + [step], v) <==> v == step.node.id || Listed(steps, v)
  {
    var longer := steps + [step];
    assert longer[|steps|] == step;
    if Listed(steps, v) {
      var i :| 0 <= i < |steps| && steps[i].node.id == v;
      assert longer[i].node.id == v;
    }
  }

  lemma AppendResult(q: Query, start: Id, depths: map<Id, nat>, low: nat, steps: seq<Step>, step: Step)
    requires ResultsOk(q, start, depths, low, steps)
    requires step.node.id !in depths && step.node.distance == low + 1 && StepOk(q, start, step)
    ensures ResultsOk(q, start, depths[step.node.id := low + 1], low, steps + [step])
  {
    hide Reaches, Adjacent;
    var depths' := depths[step.node.id := low + 1];
    forall v | v in depths' ensures Listed(steps + [step], v) {
      ListedAppend(steps, step, v);
    }
    forall i, j | 0 <= i < j < |steps + [step]|
      ensures (steps + [step])[i].node.id != (steps + [step])[j].node.id
      ensures (steps + [step])[i].node.distance <= (steps + [step])[j].node.distance
    {
    }
  }

  /** What the search for a path records about a node: depth, parent and the edge type used. */
  datatype Visit = Visit(depth: nat, parent: Option<Id>, via: Option<EdgeType>)

  /** Some edge of type `t` leads from `u` to `v`. */
  ghost predicate LeadsBy(q: Query, u: Id, v: Id, t: EdgeType) {
    exists i: nat :: Leads(q, i, u, v) && q.edges[i].edgeType == t
  }

  /** Only the start has no parent; any other parent is visited, one level closer, by a stored edge. */
  ghost predicate VisitOk(q: Query, start: Id, visited: map<Id, Visit>, v: Id)
    requires v in visited
  {
    if v == start then visited[v] == Visit(0, None, None)
    else
      && visited[v].parent.Some? && visited[v].via.Some?
      && visited[v].parent.value in visited
      && visited[visited[v].parent.value].depth + 1 == visited[v].depth
      && LeadsBy(q, visited[v].parent.value, v, visited[v].via.value)
  }

  /** The records agree with the depths, and every parent pointer leads one level up. */
  ghost predicate RecordsOk(q: Query, start: Id, visited: map<Id, Visit>, depths: map<Id, nat>) {
    && visited.Keys == depths.Keys
    && (forall v | v in visited :: visited[v].depth == depths[v])
    && (forall v | v in visited :: VisitOk(q, start, visited, v))
  }

  /** From `start` to `to`, the k-th node at distance k, each step along a stored edge of its type. */
  ghost predicate IsShortestPath(q: Query, start: Id, to: Id, path: seq<Step>) {
    && path != []
    && path[0] == Step(Node(start, map[], 0), None)
    && path[|path| - 1].node.id == to
    && IsDistance(q, start, to, |path| - 1)
    && (forall k | 0 <= k < |path| :: IsAt(q, start, path[k], k))
    && (forall k | 0 < k < |path| :: LeadsVia(q, path[k - 1].node.id, path[k]))
  }

  /** The step names distance `d`, and that is its node's distance. */
  ghost predicate IsAt(q: Query, start: Id, step: Step, d: nat) {
    step.node.distance == d && IsDistance(q, start, step.node.id, d)
  }

  /** The step was made from `u` along a stored edge of the type it names. */
  ghost predicate LeadsVia(q: Query, u: Id, step: Step) {
    step.via.Some? && LeadsBy(q, u, step.node.id, step.via.value)
  }

  function Reversed<T>(s: seq<T>): (r: seq<T>)
    ensures |r| == |s| && forall i | 0 <= i < |s| :: r[i] == s[|s| - 1 - i]
  {
    seq(|s|, i requires 0 <= i < |s| => s[|s| - 1 - i])
  }

  /** The part of the path already rebuilt, last node first; `cur` is the node to write next. */
  ghost predicate IsTail(q: Query, start: Id, to: Id, length: nat, path: seq<Step>, cur: Id) {
    && |path| <= length
    && IsDistance(q, start, cur, length - |path|)
    && (if path == [] then cur == to else path[0].node.id == to && LeadsVia(q, cur, path[|path| - 1]))
    && (forall i | 0 <= i < |path| :: IsAt(q, start, path[i], length - i))
    && (forall i | 0 < i < |path| :: LeadsVia(q, path[i].node.id, path[i - 1]))
  }

  lemma ExtendTail(q: Query, start: Id, to: Id, length: nat, path: seq<Step>, cur: Id, step: Step, parent: Id)
    requires IsTail(q, start, to, length, path, cur) && |path| < length
    requires step.node.id == cur && step.node.distance == length - |path|
    requires IsDistance(q, start, parent, length - |path| - 1)
    requires LeadsVia(q, parent, step)
    ensures IsTail(q, start, to, length, path + [step], parent)
  {
    hide IsDistance, LeadsVia;
    var path' := path + [step];
    forall i | 0 <= i < |path'| ensures IsAt(q, start, path'[i], length - i) {
    }
    forall i | 0 < i < |path'| ensures LeadsVia(q, path'[i].node.id, path'[i - 1]) {
    }
  }

  /** Writing the start closes the path; reversed, it is a shortest path. */
  lemma CloseTail(q: Query, start: Id, to: Id, length: nat, path: seq<Step>)
    requires IsTail(q, start, to, length, path, start)
    ensures IsShortestPath(q, start, to, Reversed(path + [Step(Node(start, map[], 0), None)]))
  {
    ReachesSelf(q, start);
    assert |path| == length && IsDistance(q, start, start, 0);
    hide IsDistance, LeadsVia;
    var back := path + [Step(Node(start, map[], 0), None)];
    forall i | 0 <= i < |back| ensures IsAt(q, start, back[i], length - i) {
    }
    forall i | 0 < i < |back| ensures LeadsVia(q, back[i].node.id, back[i - 1]) {
    }
    ReverseTail(q, start, to, back);
  }

  lemma ReverseTail(q: Query, start: Id, to: Id, back: seq<Step>)
    requires back != [] && back[0].node.id == to && back[|back| - 1] == Step(Node(start, map[], 0), None)
    requires forall i | 0 <= i < |back| :: IsAt(q, start, back[i], |back| - 1 - i)
    requires forall i | 0 < i < |back| :: LeadsVia(q, back[i].node.id, back[i - 1])
    ensures IsShortestPath(q, start, to, Reversed(back))
  {
    hide IsDistance, LeadsVia;
    var forth := Reversed(back);
    forall k | 0 <= k < |forth| ensures IsAt(q, start, forth[k], k) {
      assert IsAt(q, start, back[|back| - 1 - k], |back| - 1 - (|back| - 1 - k));
    }
    forall k | 0 < k < |forth| ensures LeadsVia(q, forth[k - 1].node.id, forth[k]) {
      assert LeadsVia(q, back[|back| - k].node.id, back[|back| - k - 1]);
    }
  }

  /** `node` describes `v` as the ball around seed number `s` does, and no earlier ball holds it. */
  ghost predicate FromFirstBall(q: Query, seeds: seq<Id>, bound: nat, s: nat, node: Node) {
    && s < |seeds|
    && node.distance <= bound && IsDistance(q, seeds[s], node.id, node.distance)
    && forall t | 0 <= t < s :: !ReachesWithin(q, seeds[t], node.id, bound)
  }

  ghost predicate HasFirstBall(q: Query, seeds: seq<Id>, bound: nat, node: Node) {
    exists s :: FromFirstBall(q, seeds, bound, s, node)
  }

  ghost predicate InSomeBall(q: Query, seeds: seq<Id>, bound: nat, v: Id) {
    exists s :: 0 <= s < |seeds| && ReachesWithin(q, seeds[s], v, bound)
  }

  ghost predicate HasNode(nodes: seq<Node>, v: Id) {
    exists i :: 0 <= i < |nodes| && nodes[i].id == v
  }

  ghost predicate IsUnionOfBalls(q: Query, seeds: seq<Id>, bound: nat, nodes: seq<Node>) {
    && (forall i, j | 0 <= i < j < |nodes| :: nodes[i].id != nodes[j].id)
    && (forall i | 0 <= i < |nodes| :: HasFirstBall(q, seeds, bound, nodes[i]))
    && (forall v :: HasNode(nodes, v) <==> InSomeBall(q, seeds, bound, v))
  }

  /** The balls of the first `s` seeds, one after the other; `origin` says whose ball an entry is from. */
  ghost predicate AllFrom(q: Query, seeds: seq<Id>, bound: nat, s: nat, all: seq<Node>, origin: seq<nat>)
    requires s <= |seeds|
  {
    && |origin| == |all|
    && (forall i | 0 <= i < |all| :: origin[i] < s && all[i].distance <= bound
                                     && IsDistance(q, seeds[origin[i]], all[i].id, all[i].distance))
    && (forall i, j | 0 <= i < j < |all| :: origin[i] <= origin[j])
    && (forall t, v | 0 <= t < s && ReachesWithin(q, seeds[t], v, bound) :: HasFrom(all, origin, t, v))
  }

  ghost predicate HasFrom(all: seq<Node>, origin: seq<nat>, t: nat, v: Id)
    requires |origin| == |all|
  {
    exists i :: 0 <= i < |all| && origin[i] == t && all[i].id == v
  }

  lemma AddBall(q: Query, seeds: seq<Id>, bound: nat, s: nat, all: seq<Node>, origin: seq<nat>, steps: seq<Step>)
    requires s < |seeds| && AllFrom(q, seeds, bound, s, all, origin) && IsBall(q, seeds[s], bound, steps)
    ensures AllFrom(q, seeds, bound, s + 1, all + seq(|steps|, i requires 0 <= i < |steps| => steps[i].node),
                    origin + seq(|steps|, _ => s))
  {
    hide Reaches, Adjacent;
    var all' := all + seq(|steps|, i requires 0 <= i < |steps| => steps[i].node);
    var origin' := origin + seq(|steps|, _ => s);
    forall t, v | 0 <= t < s + 1 && ReachesWithin(q, seeds[t], v, bound) ensures HasFrom(all', origin', t, v) {
      if t < s {
        assert HasFrom(all, origin, t, v);
        var i :| 0 <= i < |all| && origin[i] == t && all[i].id == v;
        assert all'[i].id == v && origin'[i] == t;
      } else {
        assert Listed(steps, v);
        var i :| 0 <= i < |steps| && steps[i].node.id == v;
        assert all'[|all| + i].id == v && origin'[|all| + i] == t;
      }
    }
  }

  /** `node` is the first entry for its id among the first `n`. */
  ghost predicate FirstIn(all: seq<Node>, n: nat, node: Node)
    requires n <= |all|
  {
    exists i :: 0 <= i < n && all[i] == node && forall j | 0 <= j < i :: all[j].id != node.id
  }

  /** What the duplicate filter keeps: the first entry of each id among the first `n`. */
  ghost predicate FirstsKept(all: seq<Node>, n: nat, nodes: seq<Node>, seen: set<Id>)
    requires n <= |all|
  {
    && (forall j, k | 0 <= j < k < |nodes| :: nodes[j].id != nodes[k].id)
    && (forall k | 0 <= k < |nodes| :: nodes[k].id in seen && FirstIn(all, n, nodes[k]))
    && (forall v | v in seen :: HasNode(nodes, v))
    && (forall j | 0 <= j < n :: all[j].id in seen)
  }

  lemma KeepNext(all: seq<Node>, n: nat, nodes: seq<Node>, seen: set<Id>)
    requires n < |all| && FirstsKept(all, n, nodes, seen)
    ensures all[n].id in seen ==> FirstsKept(all, n + 1, nodes, seen)
    ensures all[n].id !in seen ==> FirstsKept(all, n + 1, nodes + [all[n]], seen + {all[n].id})
  {
    forall k | 0 <= k < |nodes| ensures FirstIn(all, n + 1, nodes[k]) {
      StillFirst(all, n, nodes[k]);
    }
    if all[n].id !in seen {
      hide HasNode;
      var nodes' := nodes + [all[n]];
      assert forall k | 0 <= k < |nodes| :: nodes'[k] == nodes[k];
      forall v | v in seen + {all[n].id} ensures HasNode(nodes', v) {
        NodeAdded(nodes, all[n], v);
      }
      assert FirstIn(all, n + 1, all[n]);
    }
  }

  lemma StillFirst(all: seq<Node>, n: nat, node: Node)
    requires n < |all| && FirstIn(all, n, node)
    ensures FirstIn(all, n + 1, node)
  {
  }

  lemma NodeAdded(nodes: seq<Node>, node: Node, v: Id)
    ensures HasNode(nodes + [node], v) <==> HasNode(nodes, v) || v == node.id
  {
    var longer := nodes + [node];
    assert longer[|nodes|] == node;
    if HasNode(nodes, v) {
      var i :| 0 <= i < |nodes| && nodes[i].id == v;
      assert longer[i].id == v;
    }
  }

  lemma KeepFirstIsUnion(q: Query, seeds: seq<Id>, bound: nat, all: seq<Node>, origin: seq<nat>, nodes: seq<Node>,
      seen: set<Id>)
    requires AllFrom(q, seeds, bound, |seeds|, all, origin)
    requires FirstsKept(all, |all|, nodes, seen)
    ensures IsUnionOfBalls(q, seeds, bound, nodes)
  {
    hide Reaches, Adjacent;
    forall k | 0 <= k < |nodes| ensures HasFirstBall(q, seeds, bound, nodes[k]) {
      var i :| 0 <= i < |all| && all[i] == nodes[k] && forall j | 0 <= j < i :: all[j].id != nodes[k].id;
      forall t | 0 <= t < origin[i] ensures !ReachesWithin(q, seeds[t], nodes[k].id, bound) {
        if ReachesWithin(q, seeds[t], nodes[k].id, bound) {
          assert false;
        }
      }
      assert FromFirstBall(q, seeds, bound, origin[i], nodes[k]);
    }
    forall v ensures HasNode(nodes, v) <==> InSomeBall(q, seeds, bound, v) {
      if HasNode(nodes, v) {
        var k :| 0 <= k < |nodes| && nodes[k].id == v;
        assert HasFirstBall(q, seeds, bound, nodes[k]);
        var s: nat :| FromFirstBall(q, seeds, bound, s, nodes[k]);
        assert ReachesWithin(q, seeds[s], v, bound);
      }
      if InSomeBall(q, seeds, bound, v) {
        var t :| 0 <= t < |seeds| && ReachesWithin(q, seeds[t], v, bound);
        assert HasFrom(all, origin, t, v);
      }
    }
  }

  lemma BallIsComplete(q: Query, start: Id, bound: nat, depths: map<Id, nat>, low: nat, steps: seq<Step>)
    requires SearchOk(q, start, bound, depths, []) && ResultsOk(q, start, depths, low, steps)
    ensures IsBall(q, start, bound, steps)
  {
    hide Reaches, Adjacent;
    forall v ensures Listed(steps, v) <==> ReachesWithin(q, start, v, bound) {
      if ReachesWithin(q, start, v, bound) {
        var k: nat :| k <= bound && Reaches(q, start, v, k);
        SearchComplete(q, start, bound, depths, v, k);
      }
    }
  }

  lemma NotFound(q: Query, start: Id, bound: nat, depths: map<Id, nat>, to: Id)
    requires SearchOk(q, start, bound, depths, []) && to !in depths
    ensures !ReachesWithin(q, start, to, bound)
  {
    hide Reaches, Adjacent;
    if ReachesWithin(q, start, to, bound) {
      var k: nat :| k <= bound && Reaches(q, start, to, k);
      SearchComplete(q, start, bound, depths, to, k);
    }
  }

  lemma RecordVisit(q: Query, start: Id, bound: nat, visited: map<Id, Visit>, depths: map<Id, nat>, frontier: Frontier,
                    current: Id, depth: nat, k: nat, v: Id)
    requires RecordsOk(q, start, visited, depths) && Expanding(q, start, bound, depths, frontier, current, depth)
    requires Leads(q, k, current, v) && v !in depths
    ensures RecordsOk(q, start, visited[v := Visit(depth + 1, Some(current), Some(q.edges[k].edgeType))],
            depths[v := depth + 1])
  {
    hide IsDistance, Waiting;
    assert LeadsBy(q, current, v, q.edges[k].edgeType);
    var visited' := visited[v := Visit(depth + 1, Some(current), Some(q.edges[k].edgeType))];
    forall u | u in visited' ensures VisitOk(q, start, visited', u) {
      if u != v {
        assert VisitOk(q, start, visited, u);
      }
    }
  }

  /** Everything one push keeps, and why the search ends. */
  lemma PushStep(q: Query, start: Id, bound: nat, depths: map<Id, nat>, frontier: Frontier,
                 current: Id, depth: nat, k: nat, v: Id)
    requires Expanding(q, start, bound, depths, frontier, current, depth) && depth < bound
    requires Scanned(q, current, k, depths.Keys) && Leads(q, k, current, v) && v !in depths
    ensures Expanding(q, start, bound, depths[v := depth + 1], frontier + [(v, depth + 1)], current, depth)
    ensures Scanned(q, current, k + 1, depths[v := depth + 1].Keys)
    ensures Endpoints(q.edges) - depths[v := depth + 1].Keys < Endpoints(q.edges) - depths.Keys
  {
    assert Adjacent(q, current, v);
    hide Expanding, Scanned;
    PushBack(q, start, bound, depths, frontier, current, depth, v);
    JoinedIsEndpoint(q.edges[k], q.direction, current, v, q.edges);
    NeighborJoins(q.edges[k], q.direction, current, v);
    assert depths[v := depth + 1].Keys == depths.Keys + {v};
    ScanNext(q, current, k, depths.Keys);
    assert v in Endpoints(q.edges) - depths.Keys && v !in Endpoints(q.edges) - depths[v := depth + 1].Keys;
  }

  lemma SameKeys(q: Query, start: Id, visited: map<Id, Visit>, depths: map<Id, nat>)
    requires RecordsOk(q, start, visited, depths)
    ensures visited.Keys == depths.Keys
  {
  }

  lemma ResultsStart(q: Query, start: Id)
    ensures ResultsOk(q, start, map[start := 0], 0, [Step(Node(start, map[], 0), None)])
  {
    var steps := [Step(Node(start, map[], 0), None)];
    assert steps[0].node.id == start && Listed(steps, start);
  }

  lemma ResultsLater(q: Query, start: Id, depths: map<Id, nat>, low: nat, later: nat, steps: seq<Step>)
    requires ResultsOk(q, start, depths, low, steps) && low <= later
    ensures ResultsOk(q, start, depths, later, steps)
  {
  }

  /** The step written for a node reached over edge `k`. */
  lemma StepIsJustified(q: Query, start: Id, bound: nat, depths: map<Id, nat>, frontier: Frontier,
                        current: Id, depth: nat, k: nat, v: Id)
    requires Expanding(q, start, bound, depths, frontier, current, depth) && Leads(q, k, current, v)
    ensures StepOk(q, start, Step(Node(v, q.edges[k].properties, depth + 1), Some(q.edges[k].edgeType)))
  {
  }

  class MemoryGraphStore {
    var edges: seq<Edge>

    constructor ()
      ensures edges == []
    {
      edges := [];
    }

    /** Edges go to the end, so the edges a search already followed keep their numbers and their order. */
    method AddEdges(more: seq<Edge>)
      modifies this
      ensures edges == old(edges) + more
      ensures forall types, direction, u, v, d: nat ::
                Reaches(Query(old(edges), types, direction), u, v, d) ==>
                    Reaches(Query(edges, types, direction), u, v, d)
    {
      forall types: seq<EdgeType>, direction: Direction, u: Id, v: Id, d: nat
        | Reaches(Query(edges, types, direction), u, v, d)
        ensures Reaches(Query(edges + more, types, direction), u, v, d)
      {
        AddedEdgesOnlyShorten(Query(edges, types, direction), more, u, v, d);
      }
      edges := edges + more;
    }

    /** Breadth-first search from `start`, at most `maxDepth` edges deep. */
    method Traverse(start: Id, types: seq<EdgeType>, direction: Direction, maxDepth: nat) returns (results: seq<Step>)
      ensures IsBall(Query(edges, types, direction), start, maxDepth, results)
    {
      ghost var q := Query(edges, types, direction);
      var visited: map<Id, nat> := map[start := 0];
      results := [Step(Node(start, map[], 0), None)];
      var frontier: Frontier := [(start, 0)];
      ghost var low: nat := 0;
      SearchStarts(q, start, maxDepth);
      ResultsStart(q, start);
      hide Expanding, ResultsOk, DepthsOk, DoneExpanded, QueueOk, LevelDone, IsBall;
      while frontier != []
        invariant SearchOk(q, start, maxDepth, visited, frontier)
        invariant frontier != [] ==> low <= frontier[0].1
        invariant ResultsOk(q, start, visited, low, results)
        decreases Endpoints(edges) - visited.Keys, |frontier|
      {
        var (current, depth) := frontier[0];
        PopFront(q, start, maxDepth, visited, frontier);
        frontier := frontier[1..];
        ResultsLater(q, start, visited, low, depth, results);
        low := depth;
        if depth < maxDepth {
          visited, frontier, results :=
            VisitNeighbors(start, types, direction, maxDepth, current, depth, visited, frontier, results);
        }
        FinishNode(q, start, maxDepth, visited, frontier, current, depth);
      }
      BallIsComplete(q, start, maxDepth, visited, low, results);
    }

    /** The inner loop of `Traverse`: push every unvisited neighbour of `current`. */
    method VisitNeighbors(start: Id, types: seq<EdgeType>, direction: Direction, maxDepth: nat,
                          current: Id, depth: nat, visited0: map<Id, nat>, frontier0: Frontier, results0: seq<Step>)
      returns (visited: map<Id, nat>, frontier: Frontier, results: seq<Step>)
      requires Expanding(Query(edges, types, direction), start, maxDepth, visited0, frontier0, current, depth)
      requires depth < maxDepth && ResultsOk(Query(edges, types, direction), start, visited0, depth, results0)
      ensures Expanding(Query(edges, types, direction), start, maxDepth, visited, frontier, current, depth)
      ensures Expanded(Query(edges, types, direction), visited, current)
      ensures ResultsOk(Query(edges, types, direction), start, visited, depth, results)
      ensures Endpoints(edges) - visited.Keys < Endpoints(edges) - visited0.Keys ||
              (visited == visited0 && frontier == frontier0)
    {
      hide Expanding, Scanned, Expanded, ResultsOk, StepOk;
      ghost var q := Query(edges, types, direction);
      visited, frontier, results := visited0, frontier0, results0;
      var nextDepth: nat := depth + 1;
      ScanStarts(q, current, visited.Keys);
      for k := 0 to |edges|
        invariant Expanding(q, start, maxDepth, visited, frontier, current, depth)
        invariant ResultsOk(q, start, visited, depth, results)
        invariant Scanned(q, current, k, visited.Keys)
        invariant Endpoints(edges) - visited.Keys < Endpoints(edges) - visited0.Keys ||
                (visited == visited0 && frontier == frontier0)
      {
        var edge := edges[k];
        var neighbor := Neighbor(edge, direction, current);
        ScanNext(q, current, k, visited.Keys);
        if Allowed(types, edge.edgeType) && neighbor.Some? && neighbor.value !in visited {
          var v := neighbor.value;
          NeighborJoins(edge, direction, current, v);
          StepIsJustified(q, start, maxDepth, visited, frontier, current, depth, k, v);
          PushStep(q, start, maxDepth, visited, frontier, current, depth, k, v);
          var step := Step(Node(v, edge.properties, nextDepth), Some(edge.edgeType));
          AppendResult(q, start, visited, depth, results, step);
          visited := visited[v := nextDepth];
          results := results + [step];
          frontier := frontier + [(v, nextDepth)];
        }
      }
      ScannedIsExpanded(q, current, visited);
    }

    /** Breadth-first search that stops at `to`, then follows the parent pointers back. */
    method ShortestPath(start: Id, to: Id, types: seq<EdgeType>, maxDepth: nat) returns (r: Option<seq<Step>>)
      ensures r.Some? <==> ReachesWithin(Query(edges, types, Both), start, to, maxDepth)
      ensures r.Some? ==> IsShortestPath(Query(edges, types, Both), start, to, r.value)
    {
      hide Reaches, Adjacent;
      ghost var q := Query(edges, types, Both);
      var visited: map<Id, Visit> := map[start := Visit(0, None, None)];
      var frontier: Frontier := [(start, 0)];
      var found := false;
      ghost var depths: map<Id, nat> := map[start := 0];
      SearchStarts(q, start, maxDepth);
      while frontier != []
        invariant SearchOk(q, start, maxDepth, depths, frontier)
        invariant RecordsOk(q, start, visited, depths)
        invariant to in depths ==> Waiting(frontier, to)
        invariant !found
        decreases Endpoints(edges) - depths.Keys, |frontier|
      {
        var (current, depth) := frontier[0];
        PopFront(q, start, maxDepth, depths, frontier);
        WaitingTail(frontier, to);
        frontier := frontier[1..];
        if current == to {
          found := true;
          break;
        }
        if depth < maxDepth {
          visited, frontier, depths :=
            RecordNeighbors(start, to, types, maxDepth, current, depth, visited, frontier, depths);
        }
        FinishNode(q, start, maxDepth, depths, frontier, current, depth);
      }
      if found {
        var path := RebuildPath(q, start, to, maxDepth, visited, depths);
        return Some(path);
      }
      NotFound(q, start, maxDepth, depths, to);
      return None;
    }

    /** The inner loop of `ShortestPath`: push every unvisited neighbour of `current` with its parent. */
    method RecordNeighbors(start: Id, to: Id, types: seq<EdgeType>, maxDepth: nat, current: Id, depth: nat,
                           visited0: map<Id, Visit>, frontier0: Frontier, ghost depths0: map<Id, nat>)
      returns (visited: map<Id, Visit>, frontier: Frontier, ghost depths: map<Id, nat>)
      requires Expanding(Query(edges, types, Both), start, maxDepth, depths0, frontier0, current, depth)
      requires depth < maxDepth && RecordsOk(Query(edges, types, Both), start, visited0, depths0)
      requires to in depths0 ==> Waiting(frontier0, to)
      ensures Expanding(Query(edges, types, Both), start, maxDepth, depths, frontier, current, depth)
      ensures Expanded(Query(edges, types, Both), depths, current)
      ensures RecordsOk(Query(edges, types, Both), start, visited, depths)
      ensures to in depths ==> Waiting(frontier, to)
      ensures Endpoints(edges) - depths.Keys < Endpoints(edges) - depths0.Keys ||
              (depths == depths0 && frontier == frontier0)
    {
      hide Expanding, Scanned, Expanded, Waiting, RecordsOk;
      ghost var q := Query(edges, types, Both);
      visited, frontier, depths := visited0, frontier0, depths0;
      ScanStarts(q, current, depths.Keys);
      var nextDepth: nat := depth + 1;
      for k := 0 to |edges|
        invariant Expanding(q, start, maxDepth, depths, frontier, current, depth)
        invariant RecordsOk(q, start, visited, depths)
        invariant to in depths ==> Waiting(frontier, to)
        invariant Scanned(q, current, k, depths.Keys)
        invariant Endpoints(edges) - depths.Keys < Endpoints(edges) - depths0.Keys ||
                (depths == depths0 && frontier == frontier0)
      {
        var edge := edges[k];
        var neighbor := if edge.source == current then Some(edge.target)
                        else if edge.target == current then Some(edge.source) else None;
        assert neighbor == Neighbor(edge, Both, current);
        SameKeys(q, start, visited, depths);
        ScanNext(q, current, k, depths.Keys);
        if Allowed(types, edge.edgeType) && neighbor.Some? && neighbor.value !in visited {
          var v := neighbor.value;
          NeighborJoins(edge, Both, current, v);
          PushStep(q, start, maxDepth, depths, frontier, current, depth, k, v);
          WaitingAppend(frontier, to, (v, nextDepth));
          RecordVisit(q, start, maxDepth, visited, depths, frontier, current, depth, k, v);
          visited := visited[v := Visit(nextDepth, Some(current), Some(edge.edgeType))];
          depths := depths[v := nextDepth];
          frontier := frontier + [(v, nextDepth)];
        }
      }
      ScannedIsExpanded(q, current, depths);
    }

    /** Rebuild the path backwards: every lookup hits, and each parent is one level closer. */
    method RebuildPath(ghost q: Query, start: Id, to: Id, ghost bound: nat, visited: map<Id, Visit>,
        ghost depths: map<Id, nat>)
      returns (r: seq<Step>)
      requires RecordsOk(q, start, visited, depths) && DepthsOk(q, start, bound, depths) && to in depths
      ensures IsShortestPath(q, start, to, r)
    {
      ghost var length := visited[to].depth;
      var path: seq<Step> := [];
      var cur := to;
      while true
        invariant cur in visited && visited[cur].depth == length - |path|
        invariant IsTail(q, start, to, length, path, cur)
        decreases visited[cur].depth
      {
        var Visit(dist, parent, via) := visited[cur];
        assert VisitOk(q, start, visited, cur);
        var step := Step(Node(cur, map[], dist), via);
        if parent.None? {
          CloseTail(q, start, to, length, path);
          path := path + [step];
          break;
        }
        ExtendTail(q, start, to, length, path, cur, step, parent.value);
        path := path + [step];
        cur := parent.value;
      }
      return Reversed(path);
    }

    /** The union of the balls around the seeds; a node keeps the entry of the first ball it is in. */
    method Expand(seeds: seq<Id>, types: seq<EdgeType>, maxDepth: nat) returns (nodes: seq<Node>)
      ensures IsUnionOfBalls(Query(edges, types, Both), seeds, maxDepth, nodes)
    {
      hide Reaches, Adjacent;
      ghost var q := Query(edges, types, Both);
      var all: seq<Node> := [];
      ghost var origin: seq<nat> := [];
      for s := 0 to |seeds|
        invariant AllFrom(q, seeds, maxDepth, s, all, origin)
      {
        var steps := Traverse(seeds[s], types, Both, maxDepth);
        AddBall(q, seeds, maxDepth, s, all, origin, steps);
        all := all + seq(|steps|, i requires 0 <= i < |steps| => steps[i].node);
        origin := origin + seq(|steps|, _ => s);
      }
      nodes := [];
      var seen: set<Id> := {};
      for i := 0 to |all|
        invariant FirstsKept(all, i, nodes, seen)
      {
        KeepNext(all, i, nodes, seen);
        if all[i].id !in seen {
          nodes := nodes + [all[i]];
          seen := seen + {all[i].id};
        }
      }
      KeepFirstIsUnion(q, seeds, maxDepth, all, origin, nodes, seen);
    }
  }
}
