/** Distributed breadth-first search: dist_current and dist_old on every proxy of every node, a
    dirty bit per proxy, rounds of a parallel operator and a min-reducing sync between rounds.

    A run interleaves the operators of a round at the granularity of single reads, atomicMin and
    bit sets. The partition enters only through the proxies and their local edges. */
module Bfs {
  import opened Arith
  import opened Wrappers

  /** numeric_limits<uint32_t>::max() / 4. */
  const INFINITY: nat := 0xffff_ffff / 4

  /** gid maps a proxy to its node; edges lists the local out-edges of a proxy, as proxies. */
  datatype Layout = Layout(gid: seq<nat>, edges: seq<seq<nat>>, nodes: nat, source: nat)

  ghost predicate WellFormed(l: Layout)
  {
    && |l.gid| == |l.edges| && l.source < l.nodes
    && (forall p :: 0 <= p < |l.gid| ==> l.gid[p] < l.nodes)
    && (forall p, j :: 0 <= p < |l.gid| && 0 <= j < |l.edges[p]| ==> l.edges[p][j] < |l.gid|)
  }

  /** Node v is k edges away from the source along some walk of the whole graph. */
  ghost predicate Reach(l: Layout, v: nat, k: nat)
    requires WellFormed(l)
    decreases k
  {
    if k == 0 then v == l.source
    else exists p: nat, j: nat ::
      p < |l.gid| && j < |l.edges[p]| && l.gid[l.edges[p][j]] == v && Reach(l, l.gid[p], k - 1)
  }

  /** The operator on one proxy: not started in this round; active and counted; past the priority
      test; at edge j; holding newDist for edge j; about to set the bit of edge j's target; done. */
  datatype PC =
    | Waiting
    | Counted
    | SetOld
    | AtEdge(j: nat)
    | AtMin(j: nat, newDist: nat)
    | AtBit(j: nat)
    | Done

  datatype Mode = FirstRound | Round | FirstSynced | Synced | Finished

  /** History: base, the value every node was given by the last sync; started, the sum of dist_old
      when the round began. */
  datatype State = State(
    mode: Mode,
    priority: nat,
    active: nat,
    distCurrent: seq<nat>,
    distOld: seq<nat>,
    dirty: seq<bool>,
    pc: seq<PC>,
    base: seq<nat>,
    started: nat)

  ghost predicate Shape(l: Layout, s: State)
  {
    && WellFormed(l)
    && |s.distCurrent| == |s.distOld| == |s.dirty| == |s.pc| == |l.gid| && |s.base| == l.nodes
    && (forall p :: 0 <= p < |l.gid| ==>
         && (s.pc[p].AtMin? || s.pc[p].AtBit? ==> s.pc[p].j < |l.edges[p]|)
         && (s.pc[p].AtEdge? ==> s.pc[p].j <= |l.edges[p]|))
  }

  function InitialDist(l: Layout, v: nat): (d: nat) { if v == l.source then 0 else INFINITY }

  /** InitializeGraph, and the start of the first round on the proxies of the source. */
  ghost function Initial(l: Layout): (s: State)
    requires WellFormed(l)
    ensures Shape(l, s)
  {
    var d := seq(|l.gid|, p requires 0 <= p < |l.gid| => InitialDist(l, l.gid[p]));
    State(FirstRound, 0, 0, d, d, seq(|l.gid|, _ => false),
          seq(|l.gid|, p requires 0 <= p < |l.gid| => if l.gid[p] == l.source then SetOld else Done),
          seq(l.nodes, v requires 0 <= v => InitialDist(l, v)), Sum(d))
  }

  function Min(a: nat, b: nat): (m: nat) { if a < b then a else b }

  /** The least current value among the dirty proxies of v with a number below n. */
  ghost function LeastDirty(l: Layout, s: State, v: nat, n: nat): (r: Option<nat>)
    requires Shape(l, s) && n <= |l.gid|
  {
    if n == 0 then None else
    var r := LeastDirty(l, s, v, n - 1);
    if l.gid[n - 1] == v && s.dirty[n - 1]
    then Some(if r.Some? then Min(r.value, s.distCurrent[n - 1]) else s.distCurrent[n - 1])
    else r
  }

  /** sync with a min reduction: the minimum over the dirty proxies goes to all proxies. */
  ghost function SyncValue(l: Layout, s: State, v: nat, own: nat): (d: nat)
    requires Shape(l, s)
  {
    match LeastDirty(l, s, v, |l.gid|) case Some(d) => d case None => own
  }

  datatype Event =
    | Move(p: nat)               // the operator of proxy p does its next access
    | Sync                       // all operators are done: sync
    | NextRound(priority: nat)   // another round, with any priority
    | Finish                     // no active vertex anywhere: leave the loop

  ghost predicate Enabled(l: Layout, s: State, e: Event)
    requires Shape(l, s)
  {
    match e
    case Move(p) => p < |l.gid| && (s.mode.FirstRound? || s.mode.Round?) && !s.pc[p].Done?
    case Sync => (s.mode.FirstRound? || s.mode.Round?) && forall p :: 0 <= p < |l.gid| ==> s.pc[p].Done?
    case NextRound(_) => s.mode.FirstSynced? || (s.mode.Synced? && s.active > 0)
    case Finish => s.mode.Synced? && s.active == 0
  }

  /** One access of the operator. */
  ghost function Step(l: Layout, s: State, p: nat): (s': State)
    requires Shape(l, s) && Enabled(l, s, Move(p))
    ensures Shape(l, s')
  {
    match s.pc[p]
    case Waiting =>
      if s.distOld[p] > s.distCurrent[p] then s.(active := s.active + 1, pc := s.pc[p := Counted])
      else s.(pc := s.pc[p := Done])
    case Counted => s.(pc := s.pc[p := if s.priority > s.distCurrent[p] then SetOld else Done])
    case SetOld => s.(distOld := s.distOld[p := s.distCurrent[p]], pc := s.pc[p := AtEdge(0)])
    case AtEdge(j) =>
      if j < |l.edges[p]| then s.(pc := s.pc[p := AtMin(j, 1 + s.distCurrent[p])])
      else s.(pc := s.pc[p := Done])
    case AtMin(j, newDist) =>
      var dst := l.edges[p][j];
      s.(distCurrent := s.distCurrent[dst := Min(s.distCurrent[dst], newDist)],
         pc := s.pc[p := if s.distCurrent[dst] > newDist then AtBit(j) else AtEdge(j + 1)])
    case AtBit(j) => s.(dirty := s.dirty[l.edges[p][j] := true], pc := s.pc[p := AtEdge(j + 1)])
  }

  ghost function Apply(l: Layout, s: State, e: Event): (s': State)
    requires Shape(l, s) && Enabled(l, s, e)
    ensures Shape(l, s')
  {
    match e
    case Move(p) => Step(l, s, p)
    case Sync =>
      s.(mode := if s.mode.FirstRound? then FirstSynced else Synced,
         distCurrent := seq(|l.gid|, p requires 0 <= p < |l.gid| => SyncValue(l, s, l.gid[p], s.distCurrent[p])),
         dirty := seq(|l.gid|, _ => false),
         base := seq(l.nodes, v requires 0 <= v < l.nodes => SyncValue(l, s, v, s.base[v])))
    case NextRound(priority) =>
      s.(mode := Round, priority := priority, active := 0, started := Sum(s.distOld),
         pc := seq(|l.gid|, p requires 0 <= p < |l.gid| => if l.edges[p] != [] then Waiting else Done))
    case Finish => s.(mode := Finished)
  }

  ghost function Exec(l: Layout, events: seq<Event>): (s: State)
    requires WellFormed(l)
    ensures Shape(l, s)
  {
    if events == [] then Initial(l) else
    var s, e := Exec(l, events[..|events| - 1]), events[|events| - 1];
    if Enabled(l, s, e) then Apply(l, s, e) else s
  }

  // ----- the invariant

  ghost predicate Running(s: State) { s.mode.FirstRound? || s.mode.Round? }

  /** A value a proxy may hold: infinity or the length of a walk. */
  ghost predicate Real(l: Layout, v: nat, d: nat)
    requires WellFormed(l)
  {
    d == INFINITY || (d < INFINITY && Reach(l, v, d))
  }

  /** Edge j of proxy p has yet to be relaxed with the value in dist_old. */
  ghost predicate PendingEdge(s: State, p: nat, j: nat)
    requires p < |s.pc|
  {
    match s.pc[p]
    case SetOld => s.mode.FirstRound?
    case AtEdge(i) => j >= i
    case AtMin(i, _) => j >= i
    case AtBit(i) => j > i
    case _ => false
  }

  ghost predicate InOperator(pc: PC) { !pc.Waiting? && !pc.Done? }

  ghost predicate ProxyInv(l: Layout, s: State, p: nat)
    requires Shape(l, s) && p < |l.gid|
  {
    && s.distCurrent[p] <= s.distOld[p] <= INFINITY
    && Real(l, l.gid[p], s.distCurrent[p])
    && s.distCurrent[p] <= s.base[l.gid[p]]
    && (InOperator(s.pc[p]) ==> s.distCurrent[p] < INFINITY)
    && (s.pc[p].AtMin? ==>
         s.pc[p].newDist <= s.distOld[p] + 1 && Real(l, l.gid[l.edges[p][s.pc[p].j]], s.pc[p].newDist))
    && (!Running(s) ==> s.pc[p].Done? && !s.dirty[p])
  }

  ghost predicate EdgeInv(l: Layout, s: State, p: nat, j: nat)
    requires Shape(l, s) && p < |l.gid| && j < |l.edges[p]|
  {
    PendingEdge(s, p, j) || s.distCurrent[l.edges[p][j]] <= s.distOld[p] + 1
  }

  /** Some operator has lowered q and is about to set its bit. */
  ghost predicate BitComing(l: Layout, s: State, q: nat)
    requires Shape(l, s)
  {
    exists p: nat :: p < |l.gid| && s.pc[p].AtBit? && l.edges[p][s.pc[p].j] == q
  }

  ghost predicate DirtyInv(l: Layout, s: State, q: nat)
    requires Shape(l, s) && q < |l.gid|
  {
    s.dirty[q] || BitComing(l, s, q) || s.distCurrent[q] == s.base[l.gid[q]]
  }

  /** A round without active vertices changes nothing and finds nothing to do. */
  ghost predicate QuietInv(l: Layout, s: State)
    requires Shape(l, s)
  {
    (s.mode.Round? || s.mode.Synced? || s.mode.Finished?) && s.active == 0 ==>
      forall p :: 0 <= p < |l.gid| ==>
        && (s.pc[p].Waiting? || s.pc[p].Done?) && !s.dirty[p]
        && (s.pc[p].Done? && l.edges[p] != [] ==> s.distOld[p] <= s.distCurrent[p])
  }

  ghost predicate Inv(l: Layout, s: State)
  {
    && Shape(l, s)
    && s.base[l.source] == 0
    && (s.mode.Finished? ==> s.active == 0)
    && (s.mode.FirstRound? ==> forall p :: 0 <= p < |l.gid| ==> !s.pc[p].Waiting? && !s.pc[p].Counted?)
    && (forall p: nat :: p < |l.gid| ==> ProxyInv(l, s, p))
    && (forall p: nat, j: nat :: p < |l.gid| && j < |l.edges[p]| ==> EdgeInv(l, s, p, j))
    && (forall q: nat :: q < |l.gid| ==> DirtyInv(l, s, q))
    && QuietInv(l, s)
  }

  lemma {:induction false} InitialInv(l: Layout)
    requires WellFormed(l)
    ensures Inv(l, Initial(l))
  {
    assert Reach(l, l.source, 0);
  }

  // ----- steps of an operator

  lemma {:induction false} ReachNext(l: Layout, p: nat, j: nat, d: nat)
    requires WellFormed(l) && p < |l.gid| && j < |l.edges[p]| && d < INFINITY && Real(l, l.gid[p], d)
    ensures Real(l, l.gid[l.edges[p][j]], 1 + d)
  {
    assert Reach(l, l.gid[l.edges[p][j]], d + 1);
  }

  lemma {:induction false} StepKeepsProxy(l: Layout, s: State, p: nat, q: nat)
    requires Inv(l, s) && Enabled(l, s, Move(p)) && q < |l.gid|
    ensures ProxyInv(l, Step(l, s, p), q)
  {
    assert ProxyInv(l, s, q) && ProxyInv(l, s, p);
    if s.pc[p].AtEdge? && s.pc[p].j < |l.edges[p]| { ReachNext(l, p, s.pc[p].j, s.distCurrent[p]); }
  }

  lemma {:induction false} StepKeepsEdge(l: Layout, s: State, p: nat, q: nat, j: nat)
    requires Inv(l, s) && Enabled(l, s, Move(p)) && q < |l.gid| && j < |l.edges[q]|
    ensures EdgeInv(l, Step(l, s, p), q, j)
  {
    assert EdgeInv(l, s, q, j) && ProxyInv(l, s, q) && ProxyInv(l, s, p);
  }

  lemma {:induction false} StepKeepsDirty(l: Layout, s: State, p: nat, q: nat)
    requires Inv(l, s) && Enabled(l, s, Move(p)) && q < |l.gid|
    ensures DirtyInv(l, Step(l, s, p), q)
  {
    assert DirtyInv(l, s, q);
    var s' := Step(l, s, p);
    if BitComing(l, s, q) && !s.dirty[q] {
      var k: nat :| k < |l.gid| && s.pc[k].AtBit? && l.edges[k][s.pc[k].j] == q;
      if k != p { assert s'.pc[k] == s.pc[k]; }
    }
    if s.pc[p].AtMin? && l.edges[p][s.pc[p].j] == q && s.distCurrent[q] > s.pc[p].newDist {
      assert s'.pc[p].AtBit? && l.edges[p][s'.pc[p].j] == q;
    }
  }

  lemma {:induction false} StepKeepsQuiet(l: Layout, s: State, p: nat)
    requires Inv(l, s) && Enabled(l, s, Move(p))
    ensures QuietInv(l, Step(l, s, p))
  {
  }

  lemma {:induction false} StepKeepsInv(l: Layout, s: State, p: nat)
    requires Inv(l, s) && Enabled(l, s, Move(p))
    ensures Inv(l, Step(l, s, p))
  {
    var s' := Step(l, s, p);
    forall q: nat | q < |l.gid| ensures ProxyInv(l, s', q) && DirtyInv(l, s', q) {
      StepKeepsProxy(l, s, p, q);
      StepKeepsDirty(l, s, p, q);
    }
    forall q: nat, j: nat | q < |l.gid| && j < |l.edges[q]| ensures EdgeInv(l, s', q, j) {
      StepKeepsEdge(l, s, p, q, j);
    }
    StepKeepsQuiet(l, s, p);
  }

  // ----- sync

  lemma {:induction false} LeastDirtyIsLeast(l: Layout, s: State, v: nat, n: nat)
    requires Shape(l, s) && n <= |l.gid|
    ensures var r := LeastDirty(l, s, v, n);
            && (forall q: nat :: q < n && l.gid[q] == v && s.dirty[q] ==> r.Some? && r.value <= s.distCurrent[q])
            && (r.Some? ==> exists q: nat :: q < n && l.gid[q] == v && s.dirty[q] && r.value == s.distCurrent[q])
  {
    if n > 0 {
      LeastDirtyIsLeast(l, s, v, n - 1);
      var r := LeastDirty(l, s, v, n - 1);
      if l.gid[n - 1] == v && s.dirty[n - 1] && r.Some? && r.value < s.distCurrent[n - 1] {
        var q: nat :| q < n - 1 && l.gid[q] == v && s.dirty[q] && r.value == s.distCurrent[q];
      }
    }
  }

  /** After sync every proxy of a node holds the node's new base, which no proxy was below. */
  lemma {:induction false} SyncAgrees(l: Layout, s: State, p: nat)
    requires Inv(l, s) && Enabled(l, s, Sync) && p < |l.gid|
    ensures var v := l.gid[p];
            && SyncValue(l, s, v, s.distCurrent[p]) == SyncValue(l, s, v, s.base[v]) <= s.distCurrent[p]
            && Real(l, v, SyncValue(l, s, v, s.distCurrent[p]))
  {
    var v := l.gid[p];
    assert ProxyInv(l, s, p) && DirtyInv(l, s, p);
    LeastDirtyIsLeast(l, s, v, |l.gid|);
    var r := LeastDirty(l, s, v, |l.gid|);
    if r.Some? {
      var q: nat :| q < |l.gid| && l.gid[q] == v && s.dirty[q] && r.value == s.distCurrent[q];
      assert ProxyInv(l, s, q);
    }
  }

  lemma {:induction false} SyncKeepsSource(l: Layout, s: State)
    requires Inv(l, s)
    ensures SyncValue(l, s, l.source, s.base[l.source]) == 0
  {
    LeastDirtyIsLeast(l, s, l.source, |l.gid|);
    var r := LeastDirty(l, s, l.source, |l.gid|);
    if r.Some? {
      var q: nat :| q < |l.gid| && l.gid[q] == l.source && s.dirty[q] && r.value == s.distCurrent[q];
      assert ProxyInv(l, s, q);
    }
  }

  /** A round without active vertices leaves nothing to sync. */
  lemma {:induction false} QuietSyncKeepsValues(l: Layout, s: State, p: nat)
    requires Inv(l, s) && s.mode.Round? && s.active == 0 && p < |l.gid|
    ensures SyncValue(l, s, l.gid[p], s.distCurrent[p]) == s.distCurrent[p]
  {
    LeastDirtyIsLeast(l, s, l.gid[p], |l.gid|);
  }

  lemma {:induction false} SyncKeepsInv(l: Layout, s: State)
    requires Inv(l, s) && Enabled(l, s, Sync)
    ensures Inv(l, Apply(l, s, Sync))
  {
    var s' := Apply(l, s, Sync);
    SyncKeepsSource(l, s);
    forall p: nat | p < |l.gid| ensures ProxyInv(l, s', p) && DirtyInv(l, s', p) && s'.distCurrent[p] <= s.distCurrent[p] {
      assert ProxyInv(l, s, p);
      SyncAgrees(l, s, p);
    }
    forall p: nat, j: nat | p < |l.gid| && j < |l.edges[p]| ensures EdgeInv(l, s', p, j) {
      assert EdgeInv(l, s, p, j);
    }
    if s.mode.Round? && s.active == 0 {
      forall p: nat | p < |l.gid| ensures s'.distCurrent[p] == s.distCurrent[p] { QuietSyncKeepsValues(l, s, p); }
    }
  }

  lemma {:induction false} NoBitComing(l: Layout, s: State, p: nat)
    requires Inv(l, s) && !Running(s)
    ensures !BitComing(l, s, p)
  {
    forall k: nat | k < |l.gid| ensures !s.pc[k].AtBit? { assert ProxyInv(l, s, k); }
  }

  lemma {:induction false} NextRoundKeepsInv(l: Layout, s: State, priority: nat)
    requires Inv(l, s) && Enabled(l, s, NextRound(priority))
    ensures Inv(l, Apply(l, s, NextRound(priority)))
  {
    var s' := Apply(l, s, NextRound(priority));
    forall p: nat | p < |l.gid| ensures ProxyInv(l, s', p) && DirtyInv(l, s', p) {
      assert ProxyInv(l, s, p) && DirtyInv(l, s, p);
      NoBitComing(l, s, p);
    }
    forall p: nat, j: nat | p < |l.gid| && j < |l.edges[p]| ensures EdgeInv(l, s', p, j) {
      assert EdgeInv(l, s, p, j) && ProxyInv(l, s, p);
    }
    forall p | 0 <= p < |l.gid| ensures !s'.dirty[p] { assert ProxyInv(l, s, p); }
  }

  lemma {:induction false} FinishKeepsInv(l: Layout, s: State)
    requires Inv(l, s) && Enabled(l, s, Finish)
    ensures Inv(l, Apply(l, s, Finish))
  {
    var s' := Apply(l, s, Finish);
    forall p: nat | p < |l.gid| ensures ProxyInv(l, s', p) && DirtyInv(l, s', p) {
      assert ProxyInv(l, s, p) && DirtyInv(l, s, p);
      if BitComing(l, s, p) {
        var k: nat :| k < |l.gid| && s.pc[k].AtBit? && l.edges[k][s.pc[k].j] == p;
        assert s'.pc[k] == s.pc[k];
      }
    }
    forall p: nat, j: nat | p < |l.gid| && j < |l.edges[p]| ensures EdgeInv(l, s', p, j) {
      assert EdgeInv(l, s, p, j);
    }
  }

  lemma {:induction false} InvHolds(l: Layout, events: seq<Event>)
    requires WellFormed(l)
    ensures Inv(l, Exec(l, events))
  {
    if events == [] {
      InitialInv(l);
    } else {
      InvHolds(l, events[..|events| - 1]);
      var s, e := Exec(l, events[..|events| - 1]), events[|events| - 1];
      if Enabled(l, s, e) {
        match e
        case Move(p) => StepKeepsInv(l, s, p);
        case Sync => SyncKeepsInv(l, s);
        case NextRound(priority) => NextRoundKeepsInv(l, s, priority);
        case Finish => FinishKeepsInv(l, s);
      }
    }
  }

  // ----- the properties, for every partition, schedule and priority

  /** Between rounds every local edge is relaxed against dist_old, all proxies of a node agree and
      no bit is left. */
  lemma {:induction false} BetweenRounds(l: Layout, events: seq<Event>)
    requires WellFormed(l)
    ensures var s := Exec(l, events);
            !Running(s) ==>
            && (forall p: nat, j: nat :: p < |l.gid| && j < |l.edges[p]| ==>
                 s.distCurrent[l.edges[p][j]] <= s.distOld[p] + 1)
            && (forall p: nat, q: nat :: p < |l.gid| && q < |l.gid| && l.gid[p] == l.gid[q] ==>
                 s.distCurrent[p] == s.distCurrent[q])
            && (forall p: nat :: p < |l.gid| ==> !s.dirty[p])
  {
    InvHolds(l, events);
    var s := Exec(l, events);
    if !Running(s) {
      forall p: nat | p < |l.gid| ensures s.distCurrent[p] == s.base[l.gid[p]] && !s.dirty[p] && s.pc[p].Done? {
        assert ProxyInv(l, s, p) && DirtyInv(l, s, p);
        NoBitComing(l, s, p);
      }
      forall p: nat, j: nat | p < |l.gid| && j < |l.edges[p]|
        ensures s.distCurrent[l.edges[p][j]] <= s.distOld[p] + 1
      {
        assert EdgeInv(l, s, p, j);
      }
    }
  }

  /** When the operators of a round are done, every proxy lowered since the last sync has its bit
      set, so sync misses nothing. */
  lemma {:induction false} LoweredIsDirty(l: Layout, events: seq<Event>, q: nat)
    requires WellFormed(l) && q < |l.gid|
    ensures var s := Exec(l, events);
            Enabled(l, s, Sync) ==> s.distCurrent[q] <= s.base[l.gid[q]] &&
                                    (s.distCurrent[q] < s.base[l.gid[q]] ==> s.dirty[q])
  {
    InvHolds(l, events);
    assert ProxyInv(l, Exec(l, events), q) && DirtyInv(l, Exec(l, events), q);
  }

  /** Labels that agree on the proxies of a node, are 0 on the source and relaxed on every edge
      are at most the length of any walk. */
  lemma {:induction false} BelowWalks(l: Layout, d: seq<nat>, k: nat, p: nat)
    requires WellFormed(l) && |d| == |l.gid| && p < |l.gid| && Reach(l, l.gid[p], k)
    requires forall q: nat :: q < |l.gid| && l.gid[q] == l.source ==> d[q] == 0
    requires forall q: nat, j: nat :: q < |l.gid| && j < |l.edges[q]| ==> d[l.edges[q][j]] <= d[q] + 1
    requires forall q: nat, r: nat :: q < |l.gid| && r < |l.gid| && l.gid[q] == l.gid[r] ==> d[q] == d[r]
    ensures d[p] <= k
    decreases k
  {
    if k > 0 {
      var r: nat, j: nat :|
        r < |l.gid| && j < |l.edges[r]| && l.gid[l.edges[r][j]] == l.gid[p] && Reach(l, l.gid[r], k - 1);
      BelowWalks(l, d, k - 1, r);
    }
  }

  lemma {:induction false} FinishedBelowWalks(l: Layout, events: seq<Event>, k: nat, p: nat)
    requires WellFormed(l) && Exec(l, events).mode.Finished? && p < |l.gid| && Reach(l, l.gid[p], k)
    ensures Exec(l, events).distCurrent[p] <= k
  {
    InvHolds(l, events);
    BetweenRounds(l, events);
    var s := Exec(l, events);
    forall q: nat | q < |l.gid| ensures s.distCurrent[q] <= s.base[l.gid[q]] { assert ProxyInv(l, s, q); }
    forall q: nat, j: nat | q < |l.gid| && j < |l.edges[q]|
      ensures s.distCurrent[l.edges[q][j]] <= s.distCurrent[q] + 1
    {
      assert ProxyInv(l, s, q);
    }
    BelowWalks(l, s.distCurrent, k, p);
  }

  /** Exactness: a run that ended because no vertex was active has the breadth-first level on every
      proxy, and infinity on exactly the nodes that no walk shorter than infinity reaches. */
  lemma {:induction false} FinishedIsExact(l: Layout, events: seq<Event>, p: nat)
    requires WellFormed(l) && Exec(l, events).mode.Finished? && p < |l.gid|
    ensures var d := Exec(l, events).distCurrent[p];
            && d <= INFINITY
            && (d < INFINITY ==> Reach(l, l.gid[p], d))
            && (forall k: nat :: Reach(l, l.gid[p], k) ==> d <= k)
  {
    InvHolds(l, events);
    assert ProxyInv(l, Exec(l, events), p);
    forall k: nat | Reach(l, l.gid[p], k) ensures Exec(l, events).distCurrent[p] <= k {
      FinishedBelowWalks(l, events, k, p);
    }
  }
}
