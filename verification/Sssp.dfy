/** Push-style single-source shortest paths on an unordered worklist, in the two forms of the
    tutorial programs: SSSPPushSimple pushes nodes and always relaxes; SSSPsimple pushes requests
    that carry the distance and drops a request that is larger than the node's label.

    Labels are 32-bit unsigned numbers and sums wrap. Operators run atomically; the worklist may
    hand out its items in any order. */
module Sssp {
  import opened Arith

  /** DIST_INFINITY. */
  const INFINITY: nat := UINT32 - 1

  datatype Edge = Edge(dst: nat, weight: nat)

  type Graph = seq<seq<Edge>>

  /** Node 0 is *graph.begin(), the source. */
  ghost predicate WellFormed(g: Graph, maxWeight: nat)
  {
    && |g| > 0
    && (forall u, i :: 0 <= u < |g| && 0 <= i < |g[u]| ==>
         g[u][i].dst < |g| && g[u][i].weight <= maxWeight)
  }

  datatype Variant = PushSimple | Simple

  /** A work item. PushSimple never looks at the distance. */
  datatype Request = Request(dist: nat, node: nat)

  datatype State = State(dist: seq<nat>, work: multiset<Request>)

  ghost predicate Shape(g: Graph, s: State)
  {
    && |s.dist| == |g|
    && (forall u :: 0 <= u < |g| ==> s.dist[u] <= INFINITY)
    && (forall r :: r in s.work ==> r.node < |g|)
  }

  function Initial(g: Graph): (s: State)
    requires |g| > 0
  {
    State(seq(|g|, u => if u == 0 then 0 else INFINITY), multiset{Request(0, 0)})
  }

  /** One edge. PushSimple has read the source's label once (saved); Simple reads it again. */
  function RelaxEdge(g: Graph, v: Variant, s: State, u: nat, saved: nat, i: nat): (s': State)
    requires u < |g| == |s.dist| && i < |g[u]| && g[u][i].dst < |g|
  {
    var base := if v == Simple then s.dist[u] else saved;
    var e := g[u][i];
    var newDist := (base + e.weight) % UINT32;
    if newDist < s.dist[e.dst]
    then State(s.dist[e.dst := newDist], s.work + multiset{Request(newDist, e.dst)})
    else s
  }

  /** The loop over the edges from number i on. */
  function RelaxFrom(g: Graph, v: Variant, s: State, u: nat, saved: nat, i: nat): (s': State)
    requires u < |g| == |s.dist| && i <= |g[u]|
    requires forall k :: 0 <= k < |g[u]| ==> g[u][k].dst < |g|
    decreases |g[u]| - i
  {
    if i == |g[u]| then s else RelaxFrom(g, v, RelaxEdge(g, v, s, u, saved, i), u, saved, i + 1)
  }

  lemma {:induction false} RelaxUnfold(g: Graph, v: Variant, s: State, u: nat, saved: nat, i: nat)
    requires u < |g| == |s.dist| && i < |g[u]|
    requires forall k :: 0 <= k < |g[u]| ==> g[u][k].dst < |g|
    ensures RelaxFrom(g, v, s, u, saved, i) == RelaxFrom(g, v, RelaxEdge(g, v, s, u, saved, i), u, saved, i + 1)
  {
  }

  /** The operator on one work item. */
  function Process(g: Graph, v: Variant, s: State, r: Request): (s': State)
    requires r in s.work && r.node < |g| == |s.dist|
    requires forall k :: 0 <= k < |g[r.node]| ==> g[r.node][k].dst < |g|
  {
    var t := s.(work := s.work - multiset{r});
    if v == Simple && r.dist > s.dist[r.node] then t
    else RelaxFrom(g, v, t, r.node, s.dist[r.node], 0)
  }

  // ----- paths from the source

  datatype Path = Origin | Then(prev: Path, edge: nat)

  ghost predicate IsPath(g: Graph, p: Path)
    requires WellFormed(g, INFINITY)
    ensures IsPath(g, p) ==> End(g, p) < |g|
  {
    p.Origin? || (IsPath(g, p.prev) && End(g, p.prev) < |g| && p.edge < |g[End(g, p.prev)]|)
  }

  ghost function End(g: Graph, p: Path): (u: nat)
  {
    if p.Origin? then 0
    else if End(g, p.prev) < |g| && p.edge < |g[End(g, p.prev)]| then g[End(g, p.prev)][p.edge].dst
    else 0
  }

  ghost function Weight(g: Graph, p: Path): (w: nat)
  {
    if p.Origin? then 0
    else if End(g, p.prev) < |g| && p.edge < |g[End(g, p.prev)]|
    then Weight(g, p.prev) + g[End(g, p.prev)][p.edge].weight
    else 0
  }

  ghost function Nodes(g: Graph, p: Path): (r: set<nat>)
  {
    if p.Origin? then {0} else Nodes(g, p.prev) + {End(g, p)}
  }

  /** The labels are the distances: a lower bound on every path, attained unless infinite, and
      infinite only where no path leads. */
  ghost predicate Exact(g: Graph, dist: seq<nat>)
    requires WellFormed(g, INFINITY)
  {
    && |dist| == |g|
    && (forall p :: IsPath(g, p) ==> dist[End(g, p)] < INFINITY && dist[End(g, p)] <= Weight(g, p))
    && (forall u: nat :: u < |g| && dist[u] != INFINITY ==>
         exists p :: IsPath(g, p) && End(g, p) == u && Weight(g, p) == dist[u])
  }

  // ----- termination: every step descends, whatever the graph and however sums wrap

  /** Smaller labels, or the same labels and less work. */
  ghost predicate Descends(s: State, s': State)
  {
    Sum(s'.dist) < Sum(s.dist) || (Sum(s'.dist) == Sum(s.dist) && |s'.work| < |s.work|)
  }

  /** t came from s by lowering labels and pushing, or is s. */
  ghost predicate Lowered(g: Graph, s: State, t: State)
  {
    && Shape(g, t) && |s.dist| == |g| && (t == s || Sum(t.dist) < Sum(s.dist))
    && forall k :: 0 <= k < |g| ==> t.dist[k] <= s.dist[k]
  }

  lemma {:induction false} RelaxEdgeLowers(g: Graph, v: Variant, s: State, t: State, u: nat, saved: nat, i: nat)
    requires u < |g| && i < |g[u]| && g[u][i].dst < |g| && Lowered(g, s, t)
    ensures Lowered(g, s, RelaxEdge(g, v, t, u, saved, i))
  {
    var t', d := RelaxEdge(g, v, t, u, saved, i), g[u][i].dst;
    if t' != t { SumUpdate(t.dist, d, t'.dist[d]); }
  }

  lemma {:induction false} RelaxDescends(g: Graph, v: Variant, s: State, u: nat, saved: nat)
    requires u < |g| && Shape(g, s) && forall k :: 0 <= k < |g[u]| ==> g[u][k].dst < |g|
    ensures Lowered(g, s, RelaxFrom(g, v, s, u, saved, 0))
  {
    var keeps := (t: State, k: nat) => Lowered(g, s, t);
    forall t: State, k: nat | |t.dist| == |g| && k < |g[u]| && keeps(t, k)
      ensures keeps(RelaxEdge(g, v, t, u, saved, k), k + 1)
    {
      RelaxEdgeLowers(g, v, s, t, u, saved, k);
    }
    LoopKeeps(g, v, s, u, saved, 0, keeps);
  }

  /** Every step of every run, for either form of the operator, descends. */
  lemma {:induction false} ProcessDescends(g: Graph, v: Variant, s: State, r: Request)
    requires WellFormed(g, INFINITY) && Shape(g, s) && r in s.work
    ensures var s' := Process(g, v, s, r);
            && Shape(g, s') && Descends(s, s')
            && forall k :: 0 <= k < |g| ==> s'.dist[k] <= s.dist[k]
  {
    var t := s.(work := s.work - multiset{r});
    assert |t.work| == |s.work| - 1;
    RelaxDescends(g, v, t, r.node, s.dist[r.node]);
  }

  // ----- runs

  /** A run takes the given items in turn; an item that is not in the worklist is skipped. */
  ghost function Exec(g: Graph, v: Variant, s: State, items: seq<Request>): (s': State)
    requires WellFormed(g, INFINITY) && Shape(g, s)
    ensures Shape(g, s')
    ensures forall k :: 0 <= k < |g| ==> s'.dist[k] <= s.dist[k]
    decreases |items|
  {
    if items == [] then s
    else if items[0] in s.work then
      ProcessDescends(g, v, s, items[0]);
      Exec(g, v, Process(g, v, s, items[0]), items[1..])
    else Exec(g, v, s, items[1..])
  }

  /** From every state there is a run to an empty worklist. */
  lemma {:induction false} Completes(g: Graph, v: Variant, s: State) returns (items: seq<Request>)
    requires WellFormed(g, INFINITY) && Shape(g, s)
    ensures Exec(g, v, s, items).work == multiset{}
    decreases Sum(s.dist), |s.work|
  {
    if s.work == multiset{} {
      items := [];
    } else {
      var r :| r in s.work;
      ProcessDescends(g, v, s, r);
      var rest := Completes(g, v, Process(g, v, s, r));
      items := [r] + rest;
      assert items[1..] == rest;
    }
  }

  // ----- the invariant, when maxWeight times the number of nodes does not wrap

  /** A path whose label bounds hold at every node and that visits no node twice. */
  ghost predicate Good(g: Graph, dist: seq<nat>, p: Path)
    requires WellFormed(g, INFINITY) && |dist| == |g|
  {
    && IsPath(g, p)
    && dist[End(g, p)] <= Weight(g, p)
    && (p.Then? ==> Good(g, dist, p.prev) && End(g, p) !in Nodes(g, p.prev))
  }

  ghost predicate Witnessed(g: Graph, dist: seq<nat>, u: nat)
    requires WellFormed(g, INFINITY) && |dist| == |g| && u < |g|
  {
    exists p :: Good(g, dist, p) && End(g, p) == u && Weight(g, p) == dist[u]
  }

  ghost predicate Relaxed(g: Graph, dist: seq<nat>, u: nat, i: nat)
    requires WellFormed(g, INFINITY) && |dist| == |g| && u < |g| && i < |g[u]|
  {
    dist[g[u][i].dst] < INFINITY && dist[g[u][i].dst] <= dist[u] + g[u][i].weight
  }

  ghost predicate AllRelaxed(g: Graph, dist: seq<nat>, u: nat)
    requires WellFormed(g, INFINITY) && |dist| == |g| && u < |g|
  {
    forall i :: 0 <= i < |g[u]| ==> Relaxed(g, dist, u, i)
  }

  /** Labels are weights of real simple paths; items are no better than the labels. */
  ghost predicate Sound(g: Graph, s: State)
  {
    && WellFormed(g, INFINITY) && Shape(g, s)
    && s.dist[0] == 0
    && (forall u: nat :: u < |g| && s.dist[u] != INFINITY ==> Witnessed(g, s.dist, u))
    && (forall r :: r in s.work ==> s.dist[r.node] <= r.dist < INFINITY)
  }

  /** A labelled node has all its edges relaxed, or its current request is pending; except is the
      node the operator is working on. */
  ghost predicate Covered(g: Graph, s: State, except: int)
    requires WellFormed(g, INFINITY) && Shape(g, s)
  {
    forall u: nat :: u < |g| && u != except && s.dist[u] != INFINITY ==>
      AllRelaxed(g, s.dist, u) || Request(s.dist[u], u) in s.work
  }

  lemma {:induction false} NodesInside(g: Graph, p: Path)
    requires WellFormed(g, INFINITY) && IsPath(g, p)
    ensures forall u :: u in Nodes(g, p) ==> u < |g|
    ensures End(g, p) in Nodes(g, p)
  {
    if p.Then? { NodesInside(g, p.prev); }
  }

  lemma {:induction false} AtMost(s: set<nat>, n: nat)
    requires forall u :: u in s ==> u < n
    ensures |s| <= n
  {
    if n == 0 {
      assert s == {};
    } else {
      AtMost(s - {n - 1}, n - 1);
    }
  }

  /** A simple path of k nodes weighs at most (k - 1) * maxWeight. */
  lemma {:induction false} GoodWeight(g: Graph, dist: seq<nat>, p: Path, maxWeight: nat)
    requires WellFormed(g, maxWeight) && maxWeight <= INFINITY && |dist| == |g| && Good(g, dist, p)
    ensures |Nodes(g, p)| >= 1 && Weight(g, p) <= Mul(|Nodes(g, p)| - 1, maxWeight)
  {
    if p.Then? {
      GoodWeight(g, dist, p.prev, maxWeight);
      assert |Nodes(g, p)| == |Nodes(g, p.prev)| + 1;
    }
  }

  /** Labels at the nodes of a good path are finite when the path's weight is. */
  lemma {:induction false} GoodLabels(g: Graph, dist: seq<nat>, p: Path, u: nat)
    requires WellFormed(g, INFINITY) && |dist| == |g| && Good(g, dist, p) && u in Nodes(g, p)
    ensures u < |g| && dist[u] <= Weight(g, p)
  {
    NodesInside(g, p);
    if p.Then? && u != End(g, p) { GoodLabels(g, dist, p.prev, u); }
  }

  lemma {:induction false} GoodSize(g: Graph, dist: seq<nat>, p: Path, maxWeight: nat, extra: set<nat>)
    requires WellFormed(g, maxWeight) && maxWeight <= INFINITY && |dist| == |g| && Good(g, dist, p)
    requires extra !! Nodes(g, p) && forall u :: u in extra ==> u < |g|
    ensures Mul(|extra|, maxWeight) + Weight(g, p) + maxWeight <= Mul(|g|, maxWeight)
  {
    var k := |Nodes(g, p)|;
    NodesInside(g, p);
    GoodWeight(g, dist, p, maxWeight);
    AtMost(Nodes(g, p) + extra, |g|);
    assert |Nodes(g, p) + extra| == k + |extra|;
    MulMonotone(k + |extra|, |g|, maxWeight);
    MulAdd(k, |extra|, maxWeight);
  }

  /** No sum wraps, and a node without label gets a finite one. */
  lemma {:induction false} NoWrap(g: Graph, s: State, maxWeight: nat, u: nat, i: nat)
    requires WellFormed(g, maxWeight) && maxWeight <= INFINITY && Mul(|g|, maxWeight) <= INFINITY
    requires Sound(g, s) && u < |g| && i < |g[u]| && s.dist[u] != INFINITY
    ensures s.dist[u] + g[u][i].weight <= INFINITY
    ensures s.dist[g[u][i].dst] == INFINITY ==> s.dist[u] + g[u][i].weight < INFINITY
  {
    assert Witnessed(g, s.dist, u);
    var p :| Good(g, s.dist, p) && End(g, p) == u && Weight(g, p) == s.dist[u];
    GoodSize(g, s.dist, p, maxWeight, {});
    var d := g[u][i].dst;
    if s.dist[d] == INFINITY {
      assert d !in Nodes(g, p) by {
        if d in Nodes(g, p) { GoodLabels(g, s.dist, p, d); }
      }
      GoodSize(g, s.dist, p, maxWeight, {d});
      assert Mul(1, maxWeight) == maxWeight;
    }
  }

  lemma {:induction false} GoodUnderLowerLabels(g: Graph, a: seq<nat>, b: seq<nat>, p: Path)
    requires WellFormed(g, INFINITY) && |a| == |b| == |g| && Good(g, a, p)
    requires forall k :: 0 <= k < |g| ==> b[k] <= a[k]
    ensures Good(g, b, p)
  {
    if p.Then? { GoodUnderLowerLabels(g, a, b, p.prev); }
  }

  /** The operator has relaxed the first i edges of u, whose label it works with. */
  ghost predicate InLoop(g: Graph, s: State, u: nat, saved: nat, i: nat)
  {
    && Sound(g, s) && u < |g| && i <= |g[u]|
    && s.dist[u] == saved != INFINITY
    && Covered(g, s, u)
    && (forall k :: 0 <= k < i ==> Relaxed(g, s.dist, u, k))
  }

  /** Lowering the label of d through edge i of u: the new label has its own good path. */
  lemma {:induction false} LoweredIsWitnessed(g: Graph, a: seq<nat>, b: seq<nat>, u: nat, i: nat)
    requires WellFormed(g, INFINITY) && |a| == |b| == |g| && u < |g| && i < |g[u]|
    requires Witnessed(g, a, u) && a[u] + g[u][i].weight < a[g[u][i].dst]
    requires b == a[g[u][i].dst := a[u] + g[u][i].weight]
    ensures forall x: nat :: x < |g| && (x == g[u][i].dst || Witnessed(g, a, x)) ==> Witnessed(g, b, x)
  {
    var d := g[u][i].dst;
    var p :| Good(g, a, p) && End(g, p) == u && Weight(g, p) == a[u];
    assert d !in Nodes(g, p) by {
      if d in Nodes(g, p) { GoodLabels(g, a, p, d); }
    }
    GoodUnderLowerLabels(g, a, b, p);
    assert Good(g, b, Then(p, i)) && End(g, Then(p, i)) == d && Weight(g, Then(p, i)) == b[d];
    forall x: nat | x < |g| && x != d && Witnessed(g, a, x) ensures Witnessed(g, b, x) {
      var q :| Good(g, a, q) && End(g, q) == x && Weight(g, q) == a[x];
      GoodUnderLowerLabels(g, a, b, q);
    }
  }

  lemma {:induction false} LowerKeepsRelaxed(g: Graph, a: seq<nat>, b: seq<nat>, x: nat)
    requires WellFormed(g, INFINITY) && |a| == |b| == |g| && x < |g| && AllRelaxed(g, a, x)
    requires b[x] == a[x] && forall k :: 0 <= k < |g| ==> b[k] <= a[k]
    ensures AllRelaxed(g, b, x)
  {
    forall i | 0 <= i < |g[x]| ensures Relaxed(g, b, x, i) { assert Relaxed(g, a, x, i); }
  }

  lemma {:induction false} LoweredIsCovered(g: Graph, s: State, t: State, u: nat, d: nat, nd: nat)
    requires WellFormed(g, INFINITY) && Shape(g, s) && Shape(g, t) && u < |g| && d < |g| && nd < s.dist[d]
    requires t == State(s.dist[d := nd], s.work + multiset{Request(nd, d)}) && Covered(g, s, u)
    ensures Covered(g, t, u)
  {
    forall x: nat | x < |g| && x != u && t.dist[x] != INFINITY
      ensures AllRelaxed(g, t.dist, x) || Request(t.dist[x], x) in t.work
    {
      if x == d {
        assert Request(nd, d) in t.work;
      } else if AllRelaxed(g, s.dist, x) {
        LowerKeepsRelaxed(g, s.dist, t.dist, x);
      } else {
        assert Request(s.dist[x], x) in s.work;
      }
    }
  }

  /** Without wrap-around an edge is relaxed with the plain sum, in either variant. */
  lemma {:induction false} RelaxEdgePlain(g: Graph, v: Variant, s: State, u: nat, i: nat)
    requires WellFormed(g, INFINITY) && Shape(g, s) && u < |g| && i < |g[u]|
    requires s.dist[u] + g[u][i].weight <= INFINITY
    ensures var nd, d := s.dist[u] + g[u][i].weight, g[u][i].dst;
            RelaxEdge(g, v, s, u, s.dist[u], i) ==
            if nd < s.dist[d] then State(s.dist[d := nd], s.work + multiset{Request(nd, d)}) else s
  {
  }

  lemma {:induction false} LoweredIsSound(g: Graph, s: State, t: State, u: nat, i: nat)
    requires Sound(g, s) && u < |g| && i < |g[u]| && s.dist[u] != INFINITY
    requires var nd, d := s.dist[u] + g[u][i].weight, g[u][i].dst;
             nd < s.dist[d] && t == State(s.dist[d := nd], s.work + multiset{Request(nd, d)})
    ensures Sound(g, t)
  {
    assert Witnessed(g, s.dist, u);
    LoweredIsWitnessed(g, s.dist, t.dist, u, i);
    forall r | r in t.work ensures t.dist[r.node] <= r.dist < INFINITY {
      assert r in s.work || r == Request(t.dist[g[u][i].dst], g[u][i].dst);
    }
  }

  lemma {:induction false} LoweredIsRelaxed(g: Graph, dist: seq<nat>, u: nat, i: nat)
    requires WellFormed(g, INFINITY) && |dist| == |g| && u < |g| && i < |g[u]|
    requires dist[u] + g[u][i].weight < dist[g[u][i].dst] <= INFINITY
    requires forall k :: 0 <= k < i ==> Relaxed(g, dist, u, k)
    ensures var after := dist[g[u][i].dst := dist[u] + g[u][i].weight];
            after[u] == dist[u] && forall k :: 0 <= k < i + 1 ==> Relaxed(g, after, u, k)
  {
    var after := dist[g[u][i].dst := dist[u] + g[u][i].weight];
    forall k | 0 <= k < i + 1 ensures Relaxed(g, after, u, k) {
      assert k < i ==> Relaxed(g, dist, u, k);
    }
  }

  lemma {:induction false} LowerKeepsLoop(g: Graph, s: State, t: State, u: nat, saved: nat, i: nat)
    requires InLoop(g, s, u, saved, i) && i < |g[u]|
    requires var nd, d := s.dist[u] + g[u][i].weight, g[u][i].dst;
             nd < s.dist[d] && t == State(s.dist[d := nd], s.work + multiset{Request(nd, d)})
    ensures InLoop(g, t, u, saved, i + 1)
  {
    LoweredIsSound(g, s, t, u, i);
    LoweredIsCovered(g, s, t, u, g[u][i].dst, s.dist[u] + g[u][i].weight);
    LoweredIsRelaxed(g, s.dist, u, i);
  }

  lemma {:induction false} RelaxEdgeKeepsLoop(g: Graph, v: Variant, s: State, u: nat, saved: nat, i: nat, maxWeight: nat)
    requires WellFormed(g, maxWeight) && maxWeight <= INFINITY && Mul(|g|, maxWeight) <= INFINITY
    requires InLoop(g, s, u, saved, i) && i < |g[u]|
    ensures InLoop(g, RelaxEdge(g, v, s, u, saved, i), u, saved, i + 1)
  {
    NoWrap(g, s, maxWeight, u, i);
    RelaxEdgePlain(g, v, s, u, i);
    if s.dist[u] + g[u][i].weight < s.dist[g[u][i].dst] {
      LowerKeepsLoop(g, s, RelaxEdge(g, v, s, u, saved, i), u, saved, i);
    } else {
      assert Relaxed(g, s.dist, u, i);
    }
  }

  /** What every relaxed edge keeps, the loop over the edges keeps. */
  lemma {:induction false} LoopKeeps(g: Graph, v: Variant, s: State, u: nat, saved: nat, i: nat,
                                     keeps: (State, nat) -> bool)
    requires u < |g| == |s.dist| && i <= |g[u]| && forall k :: 0 <= k < |g[u]| ==> g[u][k].dst < |g|
    requires keeps(s, i)
    requires forall t: State, k: nat :: |t.dist| == |g| && k < |g[u]| && keeps(t, k) ==>
               keeps(RelaxEdge(g, v, t, u, saved, k), k + 1)
    ensures keeps(RelaxFrom(g, v, s, u, saved, i), |g[u]|)
    decreases |g[u]| - i
  {
    if i < |g[u]| {
      assert keeps(RelaxEdge(g, v, s, u, saved, i), i + 1);
      LoopKeeps(g, v, RelaxEdge(g, v, s, u, saved, i), u, saved, i + 1, keeps);
    }
  }

  lemma {:induction false} RelaxFromKeepsLoop(g: Graph, v: Variant, s: State, u: nat, saved: nat, maxWeight: nat)
    requires WellFormed(g, maxWeight) && maxWeight <= INFINITY && Mul(|g|, maxWeight) <= INFINITY
    requires InLoop(g, s, u, saved, 0)
    ensures InLoop(g, RelaxFrom(g, v, s, u, saved, 0), u, saved, |g[u]|)
  {
    var keeps := (t: State, k: nat) => InLoop(g, t, u, saved, k);
    forall t: State, k: nat | |t.dist| == |g| && k < |g[u]| && keeps(t, k)
      ensures keeps(RelaxEdge(g, v, t, u, saved, k), k + 1)
    {
      RelaxEdgeKeepsLoop(g, v, t, u, saved, k, maxWeight);
    }
    LoopKeeps(g, v, s, u, saved, 0, keeps);
  }

  ghost predicate Inv(g: Graph, s: State)
  {
    Sound(g, s) && Covered(g, s, -1)
  }

  lemma {:induction false} ProcessKeepsInv(g: Graph, v: Variant, s: State, r: Request, maxWeight: nat)
    requires WellFormed(g, maxWeight) && maxWeight <= INFINITY && Mul(|g|, maxWeight) <= INFINITY
    requires Inv(g, s) && r in s.work
    ensures Inv(g, Process(g, v, s, r))
  {
    var t, u := s.(work := s.work - multiset{r}), r.node;
    assert forall q :: q != r ==> (q in t.work <==> q in s.work);
    if v == Simple && r.dist > s.dist[u] {
      assert Covered(g, t, -1);
    } else {
      assert Covered(g, t, u);
      assert InLoop(g, t, u, s.dist[u], 0);
      RelaxFromKeepsLoop(g, v, t, u, s.dist[u], maxWeight);
      var s' := RelaxFrom(g, v, t, u, s.dist[u], 0);
      assert AllRelaxed(g, s'.dist, u);
    }
  }

  lemma {:induction false} InitialInv(g: Graph)
    requires WellFormed(g, INFINITY)
    ensures Inv(g, Initial(g))
  {
    var s := Initial(g);
    assert Good(g, s.dist, Origin) && End(g, Origin) == 0 && Weight(g, Origin) == 0;
    assert Witnessed(g, s.dist, 0);
  }

  lemma {:induction false} ExecKeepsInv(g: Graph, v: Variant, s: State, items: seq<Request>, maxWeight: nat)
    requires WellFormed(g, maxWeight) && maxWeight <= INFINITY && Mul(|g|, maxWeight) <= INFINITY && Inv(g, s)
    ensures Inv(g, Exec(g, v, s, items))
    decreases |items|
  {
    if items != [] {
      if items[0] in s.work {
        ProcessKeepsInv(g, v, s, items[0], maxWeight);
        ExecKeepsInv(g, v, Process(g, v, s, items[0]), items[1..], maxWeight);
      } else {
        ExecKeepsInv(g, v, s, items[1..], maxWeight);
      }
    }
  }

  // ----- exactness

  /** With an empty worklist every path is bounded below by the label of its end. */
  lemma {:induction false} BelowEveryPath(g: Graph, s: State, p: Path)
    requires Inv(g, s) && s.work == multiset{} && IsPath(g, p)
    ensures s.dist[End(g, p)] < INFINITY && s.dist[End(g, p)] <= Weight(g, p)
  {
    if p.Then? {
      BelowEveryPath(g, s, p.prev);
      assert AllRelaxed(g, s.dist, End(g, p.prev));
      assert Relaxed(g, s.dist, End(g, p.prev), p.edge);
    }
  }

  lemma {:induction false} DoneIsExact(g: Graph, s: State)
    requires Inv(g, s) && s.work == multiset{}
    ensures Exact(g, s.dist)
  {
    forall p | IsPath(g, p) ensures s.dist[End(g, p)] < INFINITY && s.dist[End(g, p)] <= Weight(g, p) {
      BelowEveryPath(g, s, p);
    }
    forall u: nat | u < |g| && s.dist[u] != INFINITY
      ensures exists p :: IsPath(g, p) && End(g, p) == u && Weight(g, p) == s.dist[u]
    {
      assert Witnessed(g, s.dist, u);
    }
  }

  /** For every order of the worklist and either operator: when the run is over, the labels are the
      shortest distances, provided the number of nodes times the largest weight does not wrap. */
  lemma {:induction false} RunIsExact(g: Graph, v: Variant, items: seq<Request>, maxWeight: nat)
    requires WellFormed(g, maxWeight) && maxWeight <= INFINITY && |g| * maxWeight <= INFINITY
    requires Exec(g, v, Initial(g), items).work == multiset{}
    ensures Exact(g, Exec(g, v, Initial(g), items).dist)
  {
    MulIsProduct(|g|, maxWeight);
    InitialInv(g);
    ExecKeepsInv(g, v, Initial(g), items, maxWeight);
    DoneIsExact(g, Exec(g, v, Initial(g), items));
  }

  // ----- the loops of the source

  /** The node labels and the worklist, updated in place. */
  class Solver {
    var dist: seq<nat>
    var work: multiset<Request>

    function Now(): (s: State)
      reads this
    {
      State(dist, work)
    }

    constructor (g: Graph)
      requires |g| > 0
      ensures Now() == Initial(g)
    {
      dist := seq(|g|, u => if u == 0 then 0 else INFINITY);
      work := multiset{Request(0, 0)};
    }

    /** relax_edge. */
    method Relax(g: Graph, v: Variant, u: nat, saved: nat, i: nat)
      requires u < |g| == |dist| && i < |g[u]| && g[u][i].dst < |g|
      modifies this
      ensures Now() == RelaxEdge(g, v, old(Now()), u, saved, i)
    {
      var base := if v == Simple then dist[u] else saved;
      var newDist := (base + g[u][i].weight) % UINT32;
      if newDist < dist[g[u][i].dst] {
        dist := dist[g[u][i].dst := newDist];
        work := work + multiset{Request(newDist, g[u][i].dst)};
      }
    }

    /** The operator: the stale test and the loop over the edges. */
    method Operator(g: Graph, v: Variant, r: Request)
      requires r in work && r.node < |g| == |dist|
      requires forall k :: 0 <= k < |g[r.node]| ==> g[r.node][k].dst < |g|
      modifies this
      ensures Now() == Process(g, v, old(Now()), r)
    {
      work := work - multiset{r};
      var u, saved := r.node, dist[r.node];
      if v == Simple && r.dist > dist[u] { return; }
      for i := 0 to |g[u]|
        invariant |dist| == |g|
        invariant RelaxFrom(g, v, Now(), u, saved, i) == Process(g, v, old(Now()), r)
      {
        RelaxUnfold(g, v, Now(), u, saved, i);
        Relax(g, v, u, saved, i);
      }
    }
  }

  /** The data-driven loop: it terminates for every choice of items, on every graph, and computes
      the distances when no sum can wrap. */
  method Solve(g: Graph, v: Variant, ghost maxWeight: nat) returns (dist: seq<nat>)
    requires WellFormed(g, maxWeight) && maxWeight <= INFINITY
    ensures |dist| == |g|
    ensures |g| * maxWeight <= INFINITY ==> Exact(g, dist)
  {
    var solver := new Solver(g);
    InitialInv(g);
    MulIsProduct(|g|, maxWeight);
    while solver.work != multiset{}
      invariant Shape(g, solver.Now())
      invariant Mul(|g|, maxWeight) <= INFINITY ==> Inv(g, solver.Now())
      decreases Sum(solver.dist), |solver.work|
    {
      var r :| r in solver.work;
      ProcessDescends(g, v, solver.Now(), r);
      if Mul(|g|, maxWeight) <= INFINITY { ProcessKeepsInv(g, v, solver.Now(), r, maxWeight); }
      solver.Operator(g, v, r);
    }
    dist := solver.dist;
    if Mul(|g|, maxWeight) <= INFINITY { DoneIsExact(g, solver.Now()); }
  }

  // ----- the bound is the exact one

  /** Exactness for all graphs of n nodes with weights up to maxWeight, all runs, both operators. */
  ghost predicate AlwaysExact(n: nat, maxWeight: nat)
    requires maxWeight <= INFINITY
  {
    forall g: Graph, v: Variant, items: seq<Request> ::
      WellFormed(g, maxWeight) && |g| == n && Exec(g, v, Initial(g), items).work == multiset{} ==>
      Exact(g, Exec(g, v, Initial(g), items).dist)
  }

  /** 0 -> 1 -> ... -> m-1 -> 1, all edges of weight w; the other nodes are isolated. */
  ghost function Lasso(n: nat, m: nat, w: nat): (g: Graph)
    requires 2 <= m <= n
    ensures |g| == n && (w <= INFINITY ==> WellFormed(g, w))
    ensures forall u: nat :: u < n ==>
      g[u] == (if u < m - 1 then [Edge(u + 1, w)] else if u == m - 1 then [Edge(1, w)] else [])
  {
    seq(n, u requires 0 <= u < n =>
      if u < m - 1 then [Edge(u + 1, w)] else if u == m - 1 then [Edge(1, w)] else [])
  }

  /** The labels when the run has come to node i of the lasso. */
  ghost function Along(n: nat, w: nat, i: nat): (s: State)
    requires i < n
    ensures |s.dist| == n
  {
    State(seq(n, u requires 0 <= u < n => if u <= i then Mul(u, w) else INFINITY), multiset{Request(Mul(i, w), i)})
  }

  lemma {:induction false} LassoStep(n: nat, m: nat, w: nat, v: Variant, i: nat)
    requires 2 <= m <= n && w <= INFINITY && i < m - 1 && Mul(i + 1, w) < INFINITY
    ensures Process(Lasso(n, m, w), v, Along(n, w, i), Request(Mul(i, w), i)) == Along(n, w, i + 1)
  {
    var g, s, r := Lasso(n, m, w), Along(n, w, i), Request(Mul(i, w), i);
    var t := s.(work := s.work - multiset{r});
    assert t.work == multiset{};
    RelaxUnfold(g, v, t, i, Mul(i, w), 0);
    assert RelaxEdge(g, v, t, i, Mul(i, w), 0).dist == Along(n, w, i + 1).dist;
  }

  lemma {:induction false} AlongShape(n: nat, m: nat, w: nat, i: nat)
    requires 2 <= m <= n && w <= INFINITY && i < n && Mul(i, w) <= INFINITY
    ensures Shape(Lasso(n, m, w), Along(n, w, i))
  {
    forall u: nat | u <= i ensures Mul(u, w) <= INFINITY { MulMonotone(u, i, w); }
  }

  lemma {:induction false} ExecFirst(g: Graph, v: Variant, s: State, items: seq<Request>)
    requires WellFormed(g, INFINITY) && Shape(g, s) && items != [] && items[0] in s.work
    ensures Shape(g, Process(g, v, s, items[0]))
    ensures Exec(g, v, s, items) == Exec(g, v, Process(g, v, s, items[0]), items[1..])
  {
    ProcessDescends(g, v, s, items[0]);
  }

  lemma {:induction false} ExecAppend(g: Graph, v: Variant, s: State, a: seq<Request>, b: seq<Request>)
    requires WellFormed(g, INFINITY) && Shape(g, s)
    ensures Exec(g, v, s, a + b) == Exec(g, v, Exec(g, v, s, a), b)
    decreases |a|
  {
    if a == [] {
      assert a + b == b;
    } else {
      assert (a + b)[1..] == a[1..] + b;
      if a[0] in s.work { ProcessDescends(g, v, s, a[0]); }
      ExecAppend(g, v, if a[0] in s.work then Process(g, v, s, a[0]) else s, a[1..], b);
    }
  }

  lemma {:induction false} ExecOne(g: Graph, v: Variant, s: State, r: Request)
    requires WellFormed(g, INFINITY) && Shape(g, s) && r in s.work
    ensures Exec(g, v, s, [r]) == Process(g, v, s, r)
  {
    ExecFirst(g, v, s, [r]);
    assert [r][1..] == [];
  }

  lemma {:induction false} ExecSnoc(g: Graph, v: Variant, s: State, a: seq<Request>, r: Request, t: State)
    requires WellFormed(g, INFINITY) && Shape(g, s) && Exec(g, v, s, a) == t && r in t.work
    ensures Exec(g, v, s, a + [r]) == Process(g, v, t, r)
  {
    ExecAppend(g, v, s, a, [r]);
    ExecOne(g, v, t, r);
  }

  ghost predicate Leads(g: Graph, v: Variant, s: State, r: Request, t: State)
    requires WellFormed(g, INFINITY) && Shape(g, s)
  {
    r in s.work && Process(g, v, s, r) == t
  }

  ghost predicate Link(g: Graph, v: Variant, ss: seq<State>, rs: seq<Request>, j: nat)
    requires WellFormed(g, INFINITY) && j < |rs| < |ss|
  {
    Shape(g, ss[j]) && Leads(g, v, ss[j], rs[j], ss[j + 1])
  }

  /** Each request is pending in its state and processing it gives the next. */
  ghost predicate Chain(g: Graph, v: Variant, ss: seq<State>, rs: seq<Request>)
    requires WellFormed(g, INFINITY)
  {
    && |ss| == |rs| + 1 && Shape(g, ss[0]) && Shape(g, ss[|rs|])
    && forall j: nat :: j < |rs| ==> Link(g, v, ss, rs, j)
  }

  lemma {:induction false} FollowLink(g: Graph, v: Variant, first: State, rs: seq<Request>, k: nat, s: State, t: State)
    requires WellFormed(g, INFINITY) && Shape(g, first) && Shape(g, s) && k < |rs|
    requires Exec(g, v, first, rs[..k]) == s && Leads(g, v, s, rs[k], t)
    ensures Exec(g, v, first, rs[..k + 1]) == t
  {
    ExecSnoc(g, v, first, rs[..k], rs[k], s);
    assert rs[..k + 1] == rs[..k] + [rs[k]];
  }

  lemma {:induction false} FollowChain(g: Graph, v: Variant, ss: seq<State>, rs: seq<Request>, k: nat)
    requires WellFormed(g, INFINITY) && Chain(g, v, ss, rs) && k <= |rs|
    ensures Exec(g, v, ss[0], rs[..k]) == ss[k]
  {
    if k > 0 {
      FollowChain(g, v, ss, rs, k - 1);
      assert Link(g, v, ss, rs, k - 1);
      FollowLink(g, v, ss[0], rs, k - 1, ss[k - 1], ss[k]);
    }
  }

  lemma {:induction false} ChainEnds(g: Graph, v: Variant, ss: seq<State>, rs: seq<Request>, s: State, t: State)
    requires WellFormed(g, INFINITY) && Chain(g, v, ss, rs) && s == ss[0] && t == ss[|rs|]
    ensures Shape(g, s) && Shape(g, t) && Exec(g, v, s, rs) == t
  {
    FollowChain(g, v, ss, rs, |rs|);
    assert rs[..|rs|] == rs;
  }

  /** The requests along the lasso to node k. */
  ghost function Walk(w: nat, k: nat): (items: seq<Request>)
  {
    seq(k, j requires 0 <= j < k => Request(Mul(j, w), j))
  }

  ghost function States(n: nat, w: nat, k: nat): (ss: seq<State>)
    requires k < n
  {
    seq(k + 1, i requires 0 <= i <= k => Along(n, w, i))
  }

  lemma {:induction false} LassoChain(n: nat, m: nat, w: nat, v: Variant, k: nat)
    requires 2 <= m <= n && w <= INFINITY && k <= m - 1 && Mul(k, w) < INFINITY
    ensures Chain(Lasso(n, m, w), v, States(n, w, k), Walk(w, k))
  {
    var g, ss, rs := Lasso(n, m, w), States(n, w, k), Walk(w, k);
    forall j: nat | j < |ss| ensures Shape(g, ss[j]) {
      MulMonotone(j, k, w);
      AlongShape(n, m, w, j);
    }
    forall j: nat | j < |rs| ensures Link(g, v, ss, rs, j) {
      MulMonotone(j + 1, k, w);
      LassoStep(n, m, w, v, j);
    }
  }

  /** The run that follows the lasso to node k. */
  lemma {:induction false} FollowLasso(n: nat, m: nat, w: nat, v: Variant, k: nat)
    requires 2 <= m <= n && w <= INFINITY && k <= m - 1 && Mul(k, w) < INFINITY
    ensures Shape(Lasso(n, m, w), Along(n, w, 0)) && Shape(Lasso(n, m, w), Along(n, w, k))
    ensures Exec(Lasso(n, m, w), v, Along(n, w, 0), Walk(w, k)) == Along(n, w, k)
  {
    LassoChain(n, m, w, v, k);
    ChainEnds(Lasso(n, m, w), v, States(n, w, k), Walk(w, k), Along(n, w, 0), Along(n, w, k));
  }

  lemma {:induction false} InitialIsAlong(n: nat, m: nat, w: nat)
    requires 2 <= m <= n
    ensures Initial(Lasso(n, m, w)) == Along(n, w, 0)
  {
    assert Initial(Lasso(n, m, w)).dist == Along(n, w, 0).dist;
  }

  /** A path to node k of the lasso. */
  lemma {:induction false} PathTo(n: nat, m: nat, w: nat, k: nat) returns (p: Path)
    requires 2 <= m <= n && w <= INFINITY && k < m
    ensures IsPath(Lasso(n, m, w), p) && End(Lasso(n, m, w), p) == k
  {
    p := Origin;
    if k > 0 {
      var q := PathTo(n, m, w, k - 1);
      p := Then(q, 0);
    }
  }

  /** Every path to node 1 has an edge, so no such path weighs less than one. */
  lemma {:induction false} LowLabelNotExact(n: nat, m: nat, w: nat, dist: seq<nat>)
    requires 2 <= m <= n && w <= INFINITY && |dist| == n && dist[1] < w
    ensures !Exact(Lasso(n, m, w), dist)
  {
    var g := Lasso(n, m, w);
    forall p | IsPath(g, p) && End(g, p) == 1 ensures Weight(g, p) != dist[1] {
      assert p.Then? && Weight(g, p) >= w;
    }
  }

  /** The closing edge wraps and drops the label of node 1 below the weight of any edge. */
  lemma {:induction false} WrapBreaks(n: nat, m: nat, w: nat, v: Variant) returns (items: seq<Request>)
    requires 2 <= m <= n && w <= INFINITY && UINT32 <= Mul(m, w) && Mul(m - 1, w) < INFINITY
    ensures var g := Lasso(n, m, w);
            && Exec(g, v, Initial(g), items).work == multiset{}
            && !Exact(g, Exec(g, v, Initial(g), items).dist)
  {
    var g, last := Lasso(n, m, w), Request(Mul(m - 1, w), m - 1);
    InitialIsAlong(n, m, w);
    var s1 := ClosingStep(n, m, w, v);
    var rest := Completes(g, v, s1);
    var tail := [last] + rest;
    items := Walk(w, m - 1) + tail;
    FollowLasso(n, m, w, v, m - 1);
    ExecAppend(g, v, Along(n, w, 0), Walk(w, m - 1), tail);
    assert tail[1..] == rest;
    ExecFirst(g, v, Along(n, w, m - 1), tail);
    LowLabelNotExact(n, m, w, Exec(g, v, s1, rest).dist);
  }

  lemma {:induction false} ClosingStep(n: nat, m: nat, w: nat, v: Variant) returns (s1: State)
    requires 2 <= m <= n && w <= INFINITY && UINT32 <= Mul(m, w) && Mul(m - 1, w) < INFINITY
    ensures Shape(Lasso(n, m, w), Along(n, w, m - 1)) && Shape(Lasso(n, m, w), s1)
    ensures s1 == Process(Lasso(n, m, w), v, Along(n, w, m - 1), Request(Mul(m - 1, w), m - 1))
    ensures s1.dist[1] < w
  {
    var g, s, r := Lasso(n, m, w), Along(n, w, m - 1), Request(Mul(m - 1, w), m - 1);
    AlongShape(n, m, w, m - 1);
    s1 := Process(g, v, s, r);
    ProcessDescends(g, v, s, r);
    var t := s.(work := s.work - multiset{r});
    assert Mul(1, w) == w && s.dist[1] == w;
    assert Mul(m, w) % UINT32 == Mul(m, w) - UINT32;
    RelaxUnfold(g, v, t, m - 1, Mul(m - 1, w), 0);
  }

  /** The last but one node of a lasso whose end is INFINITY away pushes nothing. */
  lemma {:induction false} DeadStep(n: nat, m: nat, w: nat, v: Variant)
    requires 2 <= m <= n && w <= INFINITY && Mul(m - 1, w) == INFINITY
    ensures var s, r := Along(n, w, m - 2), Request(Mul(m - 2, w), m - 2);
            Process(Lasso(n, m, w), v, s, r) == s.(work := multiset{})
  {
    var g, k := Lasso(n, m, w), m - 2;
    var r, s := Request(Mul(k, w), k), Along(n, w, k);
    var t := s.(work := s.work - multiset{r});
    assert t.work == multiset{};
    RelaxUnfold(g, v, t, k, Mul(k, w), 0);
    assert RelaxEdge(g, v, t, k, Mul(k, w), 0) == t;
  }

  /** A distance of exactly INFINITY is never written, so its node looks unreachable. */
  lemma {:induction false} InfinityBreaks(n: nat, m: nat, w: nat, v: Variant) returns (items: seq<Request>)
    requires 2 <= m <= n && w <= INFINITY && Mul(m - 1, w) == INFINITY
    ensures var g := Lasso(n, m, w);
            && Exec(g, v, Initial(g), items).work == multiset{}
            && !Exact(g, Exec(g, v, Initial(g), items).dist)
  {
    var g, k := Lasso(n, m, w), m - 2;
    var r, s := Request(Mul(k, w), k), Along(n, w, k);
    assert w > 0 by { if w == 0 { MulIsProduct(m - 1, 0); } }
    InitialIsAlong(n, m, w);
    AlongShape(n, m, w, k);
    items := Walk(w, k) + [r];
    FollowLasso(n, m, w, v, k);
    ExecAppend(g, v, Along(n, w, 0), Walk(w, k), [r]);
    DeadStep(n, m, w, v);
    ExecOne(g, v, s, r);
    var p := PathTo(n, m, w, m - 1);
  }

  /** The shortest lasso whose closing sum exceeds 32 bits. */
  lemma {:induction false} ShortestLasso(n: nat, w: nat) returns (m: nat)
    requires w <= INFINITY && Mul(n, w) > INFINITY
    ensures 2 <= m <= n && UINT32 <= Mul(m, w) && Mul(m - 1, w) <= INFINITY
  {
    m := n;
    while Mul(m - 1, w) > INFINITY
      invariant 2 <= m <= n && UINT32 <= Mul(m, w)
      decreases m
    {
      assert Mul(1, w) == w && Mul(0, w) == 0;
      m := m - 1;
    }
  }

  /** The exact condition: labels are the shortest distances for all graphs, orders and operators
      if and only if the number of nodes times the largest weight fits the label type. */
  lemma {:induction false} ExactIffFits(n: nat, maxWeight: nat)
    requires maxWeight <= INFINITY
    ensures AlwaysExact(n, maxWeight) <==> n * maxWeight <= INFINITY
  {
    MulIsProduct(n, maxWeight);
    if n * maxWeight <= INFINITY {
      forall g: Graph, v: Variant, items: seq<Request> |
        WellFormed(g, maxWeight) && |g| == n && Exec(g, v, Initial(g), items).work == multiset{}
        ensures Exact(g, Exec(g, v, Initial(g), items).dist)
      {
        RunIsExact(g, v, items, maxWeight);
      }
    } else {
      var m := ShortestLasso(n, maxWeight);
      var items;
      if Mul(m - 1, maxWeight) < INFINITY {
        items := WrapBreaks(n, m, maxWeight, Simple);
      } else {
        items := InfinityBreaks(n, m, maxWeight, Simple);
      }
      assert WellFormed(Lasso(n, m, maxWeight), maxWeight);
    }
  }

  /** Bounding only the longest simple path is not enough: three nodes and weights below 2^31. */
  lemma {:induction false} SimplePathBoundNotEnough()
    ensures (3 - 1) * 0x7fff_ffff < INFINITY && !AlwaysExact(3, 0x7fff_ffff)
  {
    ExactIffFits(3, 0x7fff_ffff);
  }
}
