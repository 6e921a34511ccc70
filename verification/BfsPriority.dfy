/** What the priority of a round limits in breadth-first search: a round works only on vertices below
    it, so it lowers labels to at most the priority. */
module BfsPriority {
  import opened Bfs

  /** The priority of the last round that was started, and the labels it started with. */
  ghost function PriorityOf(l: Layout, events: seq<Event>): (p: nat)
    requires WellFormed(l)
  {
    if events == [] then 0 else
    var before, e := events[..|events| - 1], events[|events| - 1];
    if e.NextRound? && Enabled(l, Exec(l, before), e) then e.priority else PriorityOf(l, before)
  }

  ghost function StartOf(l: Layout, events: seq<Event>): (ds: seq<nat>)
    requires WellFormed(l)
    ensures |ds| == |l.gid|
  {
    if events == [] then Exec(l, []).distCurrent else
    var before, e := events[..|events| - 1], events[|events| - 1];
    if e.NextRound? && Enabled(l, Exec(l, before), e) then Exec(l, before).distCurrent else StartOf(l, before)
  }

  /** Who has passed the priority test is below the priority, and so is what it is about to write. */
  ghost predicate LimitInv(l: Layout, s: State, priority: nat, start: seq<nat>, p: nat)
    requires Shape(l, s) && p < |l.gid| == |start|
  {
    s.mode.Round? ==>
      && s.priority == priority
      && (s.pc[p].SetOld? || s.pc[p].AtEdge? || s.pc[p].AtMin? || s.pc[p].AtBit? ==> s.distCurrent[p] < priority)
      && (s.pc[p].AtMin? ==> s.pc[p].newDist <= priority)
      && (s.distCurrent[p] == start[p] || s.distCurrent[p] <= priority)
  }

  lemma {:induction false} MoveKeepsLimit(l: Layout, s: State, q: nat, priority: nat, start: seq<nat>, p: nat)
    requires Shape(l, s) && Enabled(l, s, Move(q)) && p < |l.gid| == |start|
    requires LimitInv(l, s, priority, start, p) && LimitInv(l, s, priority, start, q)
    ensures LimitInv(l, Step(l, s, q), priority, start, p)
  {
  }

  lemma {:induction false} LimitHolds(l: Layout, events: seq<Event>, p: nat)
    requires WellFormed(l) && p < |l.gid|
    ensures LimitInv(l, Exec(l, events), PriorityOf(l, events), StartOf(l, events), p)
  {
    if events != [] {
      var before, e := events[..|events| - 1], events[|events| - 1];
      LimitHolds(l, before, p);
      if e.Move? && Enabled(l, Exec(l, before), e) {
        LimitHolds(l, before, e.p);
        MoveKeepsLimit(l, Exec(l, before), e.p, PriorityOf(l, before), StartOf(l, before), p);
      }
    }
  }

  /** In every run and at every time of a round, the label of a proxy is the one the round started with,
      or at most the priority of the round. */
  lemma {:induction false} PriorityLimits(l: Layout, events: seq<Event>, p: nat)
    requires WellFormed(l) && p < |l.gid| && Exec(l, events).mode.Round?
    ensures var d := Exec(l, events).distCurrent[p]; d == StartOf(l, events)[p] || d <= PriorityOf(l, events)
  {
    LimitHolds(l, events, p);
  }
}
