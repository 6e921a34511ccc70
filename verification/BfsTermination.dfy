/** Distributed breadth-first search comes to an end, in every interleaving and on every partition,
    with the priorities the program computes: every access, sync and new round lowers one number. */
module BfsTermination {
  import opened Arith
  import opened Bfs

  // ----- the accesses of a round

  /** How many accesses an operator still has, at most. */
  ghost function Left(degree: nat, pc: PC): (n: int)
  {
    match pc
    case Waiting => 3 * degree + 4
    case Counted => 3 * degree + 3
    case SetOld => 3 * degree + 2
    case AtEdge(j) => 3 * (degree - j) + 1
    case AtMin(j, _) => 3 * (degree - j)
    case AtBit(j) => 3 * (degree - j) - 1
    case Done => 0
  }

  ghost function LeftOf(l: Layout, s: State): (r: seq<nat>)
    requires Shape(l, s)
    ensures |r| == |l.gid|
  {
    seq(|l.gid|, p requires 0 <= p < |l.gid| => Left(|l.edges[p]|, s.pc[p]))
  }

  ghost function MovesLeft(l: Layout, s: State): (n: nat)
    requires Shape(l, s)
  {
    Sum(LeftOf(l, s))
  }

  ghost function Degrees(l: Layout): (r: seq<nat>)
    requires WellFormed(l)
    ensures |r| == |l.gid|
  {
    seq(|l.gid|, p requires 0 <= p < |l.gid| => 3 * |l.edges[p]| + 4)
  }

  /** No round has more accesses than three an edge and four a proxy. */
  ghost function RoundBound(l: Layout): (n: nat)
    requires WellFormed(l)
  {
    Sum(Degrees(l))
  }

  lemma {:induction false} MovesBounded(l: Layout, s: State)
    requires Shape(l, s)
    ensures MovesLeft(l, s) <= RoundBound(l)
  {
    SumBound(LeftOf(l, s), Degrees(l));
  }

  /** Each access of a round leaves one less. */
  lemma {:induction false} MoveDescends(l: Layout, s: State, p: nat)
    requires Shape(l, s) && Enabled(l, s, Move(p))
    ensures MovesLeft(l, Step(l, s, p)) < MovesLeft(l, s)
  {
    var s' := Step(l, s, p);
    assert LeftOf(l, s') == LeftOf(l, s)[p := Left(|l.edges[p]|, s'.pc[p])];
    SumUpdate(LeftOf(l, s), p, Left(|l.edges[p]|, s'.pc[p]));
  }

  // ----- a round that may work on every active vertex lowers dist_old

  /** Some operator has counted its vertex and is about to lower its dist_old. */
  ghost predicate LoweringAhead(s: State)
  {
    exists p: nat :: p < |s.pc| == |s.distOld| == |s.distCurrent| && Lowering(s, p)
  }

  ghost predicate Lowering(s: State, p: nat)
    requires p < |s.pc| == |s.distOld| == |s.distCurrent|
  {
    (s.pc[p].Counted? || s.pc[p].SetOld?) && s.distCurrent[p] < s.distOld[p]
  }

  /** A round without limit that has counted a vertex lowers the sum. */
  ghost predicate RoundInv(s: State)
  {
    && Sum(s.distOld) <= s.started
    && ((s.mode.Round? || s.mode.Synced?) && s.priority >= INFINITY && s.active > 0 ==>
         Sum(s.distOld) < s.started || (s.mode.Round? && LoweringAhead(s)))
  }

  lemma {:induction false} MoveKeepsSum(l: Layout, s: State, p: nat)
    requires Inv(l, s) && Enabled(l, s, Move(p))
    ensures Sum(Step(l, s, p).distOld) <= Sum(s.distOld)
    ensures s.pc[p].SetOld? && s.distCurrent[p] < s.distOld[p] ==> Sum(Step(l, s, p).distOld) < Sum(s.distOld)
  {
    assert ProxyInv(l, s, p);
    if s.pc[p].SetOld? { SumUpdate(s.distOld, p, s.distCurrent[p]); }
  }

  /** A counted vertex stays ahead until its operator lowers the sum. */
  lemma {:induction false} MoveKeepsAhead(l: Layout, s: State, p: nat)
    requires Inv(l, s) && Enabled(l, s, Move(p)) && s.mode.Round? && s.priority >= INFINITY
    requires LoweringAhead(s)
    ensures LoweringAhead(Step(l, s, p)) || Sum(Step(l, s, p).distOld) < Sum(s.distOld)
  {
    var s' := Step(l, s, p);
    var q: nat :| q < |s.pc| && Lowering(s, q);
    assert ProxyInv(l, s, p) && ProxyInv(l, s, q);
    MoveKeepsSum(l, s, p);
    if q != p || s.pc[p].Counted? { assert Lowering(s', q); }
  }

  lemma {:induction false} MoveKeepsRound(l: Layout, s: State, p: nat)
    requires Inv(l, s) && RoundInv(s) && Enabled(l, s, Move(p))
    ensures RoundInv(Step(l, s, p))
  {
    var s' := Step(l, s, p);
    MoveKeepsSum(l, s, p);
    if s.mode.Round? && s.priority >= INFINITY {
      if s.active > 0 && LoweringAhead(s) { MoveKeepsAhead(l, s, p); }
      if s'.active > s.active { assert Lowering(s', p); }
    }
  }

  lemma {:induction false} StepKeepsRound(l: Layout, s: State, e: Event)
    requires Inv(l, s) && RoundInv(s) && Enabled(l, s, e)
    ensures RoundInv(Apply(l, s, e))
  {
    match e
    case Move(p) => MoveKeepsRound(l, s, p);
    case Sync =>
    case NextRound(_) =>
    case Finish =>
  }

  lemma {:induction false} RoundHolds(l: Layout, events: seq<Event>)
    requires WellFormed(l)
    ensures Inv(l, Exec(l, events)) && RoundInv(Exec(l, events))
  {
    InvHolds(l, events);
    if events != [] {
      var before := events[..|events| - 1];
      RoundHolds(l, before);
      var s, e := Exec(l, before), events[|events| - 1];
      if Enabled(l, s, e) { StepKeepsRound(l, s, e); }
    }
  }

  /** A sync that ends a round in which every active vertex was within the priority. */
  ghost predicate Fruitful(l: Layout, s: State, e: Event)
    requires Shape(l, s)
  {
    Enabled(l, s, e) && e.Sync? && s.mode.Round? && s.priority >= INFINITY && s.active > 0
  }

  ghost function FruitfulRounds(l: Layout, events: seq<Event>): (n: nat)
    requires WellFormed(l)
  {
    if events == [] then 0 else
    var before := events[..|events| - 1];
    FruitfulRounds(l, before) + (if Fruitful(l, Exec(l, before), events[|events| - 1]) then 1 else 0)
  }

  /** The sum each further round has to start from. */
  ghost function Reserve(s: State): (n: nat) { if Running(s) then s.started else Sum(s.distOld) }

  lemma {:induction false} SyncSpends(l: Layout, s: State, e: Event)
    requires Inv(l, s) && RoundInv(s) && Enabled(l, s, e)
    ensures Reserve(Apply(l, s, e)) + (if Fruitful(l, s, e) then 1 else 0) <= Reserve(s)
  {
    if e.Sync? {
      forall p: nat | p < |s.pc| ensures !s.pc[p].Counted? && !s.pc[p].SetOld? { assert s.pc[p].Done?; }
    }
  }

  /** A run has at most as many such rounds as the first values of dist_old add up to. */
  lemma {:induction false} FruitfulRoundsBounded(l: Layout, events: seq<Event>)
    requires WellFormed(l)
    ensures FruitfulRounds(l, events) + Reserve(Exec(l, events)) <= Sum(Initial(l).distOld)
  {
    if events != [] {
      var before := events[..|events| - 1];
      FruitfulRoundsBounded(l, before);
      RoundHolds(l, before);
      var s, e := Exec(l, before), events[|events| - 1];
      if Enabled(l, s, e) { SyncSpends(l, s, e); }
    }
  }

  // ----- the priorities of the program

  /** The priority before the first round, and the 32-bit addition before each. */
  function Next(delta: nat, s: State): (q: nat)
  {
    ((if s.mode.FirstSynced? then (if delta == 0 then UINT32 - 1 else 0) else s.priority) + delta) % UINT32
  }

  ghost predicate Follows(delta: nat, s: State, e: Event) { e.NextRound? ==> e.priority == Next(delta, s) }

  /** delta so large that the sums go down instead of up. */
  predicate Backward(delta: nat) { delta > UINT32 - INFINITY }

  /** How long the priority may stay below infinity. */
  function Wait(delta: nat, q: nat): (w: nat)
  {
    if q >= INFINITY then 0 else if Backward(delta) then q + 1 else INFINITY - q
  }

  /** Whatever delta is, the priority keeps coming back to infinity or above. */
  lemma {:induction false} PriorityRecurs(delta: nat, q: nat)
    requires delta < UINT32 && q < INFINITY && delta > 0
    ensures Wait(delta, (q + delta) % UINT32) < Wait(delta, q) <= INFINITY
  {
    if q + delta >= UINT32 { assert (q + delta) % UINT32 == q + delta - UINT32; }
  }

  ghost predicate PriorityInv(delta: nat, s: State)
  {
    s.mode.Round? || s.mode.Synced? ==> s.priority < UINT32 && (delta == 0 ==> s.priority >= INFINITY)
  }

  lemma {:induction false} StepKeepsPriority(l: Layout, delta: nat, s: State, e: Event)
    requires Shape(l, s) && delta < UINT32 && PriorityInv(delta, s) && Enabled(l, s, e) && Follows(delta, s, e)
    ensures PriorityInv(delta, Apply(l, s, e))
  {
  }

  // ----- one number that every event lowers

  /** Rounds the present sum of dist_old still pays for: up to the next priority without limit, or,
      once such a round has lowered the sum, until the one after it. */
  ghost function Credit(delta: nat, s: State): (c: nat)
    ensures c <= INFINITY + 1
  {
    if s.mode.FirstRound? || s.mode.FirstSynced? then INFINITY + 1
    else if s.priority < INFINITY then Wait(delta, s.priority)
    else if Sum(s.distOld) < s.started then INFINITY + 1 else 0
  }

  /** What is left of the round. */
  ghost function Stage(l: Layout, s: State): (n: nat)
    requires Shape(l, s)
    ensures n <= RoundBound(l) + 2
  {
    MovesBounded(l, s);
    if Running(s) then MovesLeft(l, s) + 2 else if s.mode.Finished? then 0 else 1
  }

  /** Three digits as one number. */
  function Rank(a: nat, b: nat, c: nat, base: nat, unit: nat): (r: nat) { Mul(Mul(a, base) + b, unit) + c }

  lemma {:induction false} RankDrops(a: nat, b: nat, c: nat, a': nat, b': nat, c': nat, base: nat, unit: nat)
    requires b < base && b' < base && c < unit && c' < unit
    requires a' < a || (a' == a && (b' < b || (b' == b && c' < c)))
    ensures Rank(a', b', c', base, unit) < Rank(a, b, c, base, unit)
  {
    var hi, hi' := Mul(a, base) + b, Mul(a', base) + b';
    if a' < a { MulMonotone(a' + 1, a, base); }
    if hi' < hi { MulMonotone(hi' + 1, hi, unit); }
  }

  ghost function Measure(l: Layout, delta: nat, s: State): (n: nat)
    requires Shape(l, s)
  {
    Rank(Sum(s.distOld), Credit(delta, s), Stage(l, s), INFINITY + 2, RoundBound(l) + 3)
  }

  ghost predicate Drops(l: Layout, delta: nat, s: State, s': State)
    requires Shape(l, s) && Shape(l, s')
  {
    var a, a', b, b' := Sum(s.distOld), Sum(s'.distOld), Credit(delta, s), Credit(delta, s');
    a' < a || (a' == a && (b' < b || (b' == b && Stage(l, s') < Stage(l, s))))
  }

  lemma {:induction false} MoveDrops(l: Layout, delta: nat, s: State, p: nat)
    requires Inv(l, s) && Enabled(l, s, Move(p))
    ensures Drops(l, delta, s, Step(l, s, p))
  {
    MoveKeepsSum(l, s, p);
    MoveDescends(l, s, p);
  }

  lemma {:induction false} NextRoundDrops(l: Layout, delta: nat, s: State, priority: nat)
    requires Inv(l, s) && RoundInv(s) && delta < UINT32 && PriorityInv(delta, s)
    requires Enabled(l, s, NextRound(priority)) && priority == Next(delta, s)
    ensures Drops(l, delta, s, Apply(l, s, NextRound(priority)))
  {
    if s.mode.Synced? && s.priority < INFINITY { PriorityRecurs(delta, s.priority); }
  }

  lemma {:induction false} EveryEventDescends(l: Layout, delta: nat, s: State, e: Event)
    requires Inv(l, s) && RoundInv(s) && delta < UINT32 && PriorityInv(delta, s)
    requires Enabled(l, s, e) && Follows(delta, s, e)
    ensures Measure(l, delta, Apply(l, s, e)) < Measure(l, delta, s)
  {
    var s' := Apply(l, s, e);
    match e {
      case Move(p) => MoveDrops(l, delta, s, p);
      case NextRound(priority) => NextRoundDrops(l, delta, s, priority);
      case Sync =>
      case Finish =>
    }
    RankDrops(Sum(s.distOld), Credit(delta, s), Stage(l, s), Sum(s'.distOld), Credit(delta, s'), Stage(l, s'),
              INFINITY + 2, RoundBound(l) + 3);
  }

  // ----- every run ends

  /** A run of the program: every event can happen, and new rounds have the program's priority. */
  ghost predicate IsRun(l: Layout, delta: nat, events: seq<Event>)
    requires WellFormed(l)
  {
    events == [] ||
    var before, e := events[..|events| - 1], events[|events| - 1];
    IsRun(l, delta, before) && Enabled(l, Exec(l, before), e) && Follows(delta, Exec(l, before), e)
  }

  lemma {:induction false} RunDescends(l: Layout, delta: nat, events: seq<Event>)
    requires WellFormed(l) && delta < UINT32 && IsRun(l, delta, events)
    ensures PriorityInv(delta, Exec(l, events))
    ensures |events| + Measure(l, delta, Exec(l, events)) <= Measure(l, delta, Initial(l))
  {
    if events != [] {
      var before, e := events[..|events| - 1], events[|events| - 1];
      RunDescends(l, delta, before);
      RoundHolds(l, before);
      StepKeepsPriority(l, delta, Exec(l, before), e);
      EveryEventDescends(l, delta, Exec(l, before), e);
    }
  }

  /** Until a run is over it can go on. */
  lemma {:induction false} NotStuck(l: Layout, delta: nat, events: seq<Event>) returns (e: Event)
    requires WellFormed(l) && !Exec(l, events).mode.Finished?
    ensures Enabled(l, Exec(l, events), e) && Follows(delta, Exec(l, events), e)
  {
    var s := Exec(l, events);
    if Running(s) {
      if p: nat :| p < |l.gid| && !s.pc[p].Done? { e := Move(p); } else { e := Sync; }
    } else if s.mode.Synced? && s.active == 0 {
      e := Finish;
    } else {
      e := NextRound(Next(delta, s));
    }
  }

  /** Termination: no run of the program, however scheduled, is longer than a number that depends on
      the partition and delta alone, and one that cannot go on has finished. */
  lemma {:induction false} EveryRunFinishes(l: Layout, delta: nat, events: seq<Event>)
    requires WellFormed(l) && delta < UINT32 && IsRun(l, delta, events)
    ensures |events| <= Measure(l, delta, Initial(l))
    ensures (forall e :: !IsRun(l, delta, events + [e])) ==> Exec(l, events).mode.Finished?
  {
    RunDescends(l, delta, events);
    if !Exec(l, events).mode.Finished? {
      var e := NotStuck(l, delta, events);
      assert (events + [e])[..|events + [e]| - 1] == events;
      assert IsRun(l, delta, events + [e]);
    }
  }

  /** Total correctness: a run that cannot go on holds the breadth-first level on every proxy. */
  lemma {:induction false} EveryRunIsExact(l: Layout, delta: nat, events: seq<Event>, p: nat)
    requires WellFormed(l) && delta < UINT32 && IsRun(l, delta, events) && p < |l.gid|
    requires forall e :: !IsRun(l, delta, events + [e])
    ensures var d := Exec(l, events).distCurrent[p];
            && d <= INFINITY && (d < INFINITY ==> Reach(l, l.gid[p], d))
            && (forall k: nat :: Reach(l, l.gid[p], k) ==> d <= k)
  {
    EveryRunFinishes(l, delta, events);
    FinishedIsExact(l, events, p);
  }
}
