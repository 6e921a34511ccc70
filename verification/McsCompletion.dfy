/** The MCS tree barrier comes to an end: once all threads have entered an episode, boundedly many
    steps of threads that are not spinning can be taken, and when there are none left all threads
    have returned from it. */
module McsCompletion {
  import opened Arith
  import opened Mcs
  import opened Wrappers

  /** The steps thread i has still to take, not counting those of a failed spin. */
  ghost function Left(p: nat, s: State, i: nat): (k: nat)
    requires WellFormed(p, s) && i < p
    ensures k <= 13
  {
    if s.pc[i] == Outside then 0
    else if s.pc[i].Check? && Blocked(p, s, i) then 13
    else 14 - Rank(s.pc[i])
  }

  ghost function Lefts(p: nat, s: State): (ks: seq<nat>)
    requires WellFormed(p, s)
    ensures |ks| == p
  {
    seq(p, i requires 0 <= i < p => Left(p, s, i))
  }

  ghost function Measure(p: nat, s: State): (m: nat)
    requires WellFormed(p, s)
  {
    Sum(Lefts(p, s))
  }

  /** A step of another thread sets no slot of i. */
  lemma {:induction false} OthersUnblock(p: nat, s: State, t: nat, i: nat)
    requires WellFormed(p, s) && t < p && i < p && t != i
    ensures Left(p, Step(p, s, t), i) <= Left(p, s, i)
  {
    var s' := Step(p, s, t);
    assert s'.pc[i] == s.pc[i];
    forall j: nat | j < 4 && s'.childnotready[Slot(i, j)] ensures s.childnotready[Slot(i, j)] {}
  }

  /** A thread that is not blocked gets on, a blocked one spins in place. */
  lemma {:induction false} OwnStep(p: nat, s: State, t: nat)
    requires WellFormed(p, s) && t < p && s.pc[t] != Outside
    ensures Left(p, Step(p, s, t), t) <= Left(p, s, t) - if Blocked(p, s, t) then 0 else 1
  {
    var s' := Step(p, s, t);
    if s.pc[t].Check? { assert s'.childnotready == s.childnotready; }
  }

  lemma {:induction false} StepLowers(p: nat, s: State, t: nat)
    requires WellFormed(p, s) && t < p && s.pc[t] != Outside
    ensures Measure(p, Step(p, s, t)) <= Measure(p, s) - if Blocked(p, s, t) then 0 else 1
  {
    var a, b := Lefts(p, s), Lefts(p, Step(p, s, t));
    forall i: nat | i < p ensures b[i] <= a[t := b[t]][i] { if i != t { OthersUnblock(p, s, t, i); } }
    SumBound(b, a[t := b[t]]);
    SumUpdate(a, t, b[t]);
    OwnStep(p, s, t);
  }

  /** Nobody enters anew: each step is of a thread inside wait. */
  ghost predicate IsInside(p: nat, s: State, schedule: seq<nat>)
    requires WellFormed(p, s)
  {
    schedule == [] ||
    (var before, t := schedule[..|schedule| - 1], schedule[|schedule| - 1];
     IsInside(p, s, before) && t < p && Exec(p, s, before).pc[t] != Outside)
  }

  /** How many of the steps are of threads that are not spinning. */
  ghost function Moves(p: nat, s: State, schedule: seq<nat>): (k: nat)
    requires WellFormed(p, s)
  {
    if schedule == [] then 0 else
    var before, t := schedule[..|schedule| - 1], schedule[|schedule| - 1];
    Moves(p, s, before) + if t < p && !Blocked(p, Exec(p, s, before), t) then 1 else 0
  }

  lemma {:induction false} RunLowers(p: nat, s: State, schedule: seq<nat>)
    requires WellFormed(p, s) && IsInside(p, s, schedule)
    ensures Measure(p, Exec(p, s, schedule)) + Moves(p, s, schedule) <= Measure(p, s)
  {
    if schedule != [] {
      var before := schedule[..|schedule| - 1];
      RunLowers(p, s, before);
      StepLowers(p, Exec(p, s, before), schedule[|schedule| - 1]);
    }
  }

  lemma {:induction false} MeasureBound(p: nat, s: State)
    requires WellFormed(p, s)
    ensures Measure(p, s) <= Mul(p, 13)
  {
    SumBound(Lefts(p, s), seq(p, _ => 13));
    SumOfSame(p, 13);
  }

  // ----- what the run keeps

  lemma {:induction false} InvAfter(p: nat, s: State, schedule: seq<nat>)
    requires Inv(p, s)
    ensures Inv(p, Exec(p, s, schedule))
  {
    if schedule != [] {
      var before, t := schedule[..|schedule| - 1], schedule[|schedule| - 1];
      InvAfter(p, s, before);
      if t < p { StepKeepsInv(p, Exec(p, s, before), t); }
    }
  }

  lemma {:induction false} EnteredStays(p: nat, s: State, t: nat, i: nat, e: nat)
    requires WellFormed(p, s) && t < p && i < p && s.pc[t] != Outside
    ensures Entered(Step(p, s, t), i, e) <==> Entered(s, i, e)
  {
    if t != i { assert Step(p, s, t).pc[i] == s.pc[i] && Step(p, s, t).episode[i] == s.episode[i]; }
  }

  lemma {:induction false} EnteredAfter(p: nat, s: State, schedule: seq<nat>, i: nat, e: nat)
    requires WellFormed(p, s) && IsInside(p, s, schedule) && i < p
    ensures Entered(Exec(p, s, schedule), i, e) <==> Entered(s, i, e)
  {
    if schedule != [] {
      var before := schedule[..|schedule| - 1];
      EnteredAfter(p, s, before, i, e);
      EnteredStays(p, Exec(p, s, before), schedule[|schedule| - 1], i, e);
    }
  }

  /** While a thread is inside the slowest episode, and all have entered that, some thread inside
      wait is not blocked. */
  lemma {:induction false} SomeoneFree(p: nat, s: State, e: nat, k: nat) returns (i: nat)
    requires Inv(p, s) && k < p && s.episode[k] <= e && forall i: nat :: i < p ==> Entered(s, i, e)
    ensures i < p && s.pc[i] != Outside && !Blocked(p, s, i)
  {
    var low := Slowest(s.episode);
    assert Entered(s, low, e);
    var last := LastArriver(s.episode, s.pc, e);
    if last.Some? {
      i := last.value;
      LastArriverFree(p, s, i);
    } else {
      i := low;
      FirstSleeperFree(p, s, low);
    }
    assert Entered(s, i, e);
  }

  /** A call of wait is accepted at any time. */
  lemma {:induction false} WaitEnters(p: nat, s: State, i: nat)
    requires WellFormed(p, s) && i < p && s.pc[i] == Outside
    ensures Entered(Step(p, s, i), i, s.episode[i])
  {
  }

  lemma {:induction false} MovesBounded(p: nat, s: State, schedule: seq<nat>)
    requires WellFormed(p, s) && IsInside(p, s, schedule)
    ensures Moves(p, s, schedule) <= 13 * p
  {
    RunLowers(p, s, schedule);
    MeasureBound(p, s);
    MulIsProduct(p, 13);
  }

  lemma {:induction false} AllReturned(p: nat, s: State, e: nat)
    requires Inv(p, s) && (forall i: nat :: i < p ==> Entered(s, i, e))
    requires forall i: nat :: i < p ==> (s.pc[i] != Outside ==> Blocked(p, s, i))
    ensures forall i: nat :: i < p ==>
              && s.episode[i] > e
              && (!Entered(s, i, e + 1) ==>
                    s.pc[i] == Outside && s.episode[i] == e + 1 && Entered(Step(p, s, i), i, e + 1))
  {
    if k: nat :| k < p && s.episode[k] <= e {
      var i := SomeoneFree(p, s, e, k);
    } else {
      forall i: nat | i < p && s.pc[i] == Outside ensures Entered(Step(p, s, i), i, s.episode[i]) { WaitEnters(p, s, i); }
    }
  }

  lemma {:induction false} CompletesFrom(p: nat, d: State, schedule: seq<nat>, e: nat)
    requires Inv(p, d) && IsInside(p, d, schedule) && forall i: nat :: i < p ==> Entered(d, i, e)
    ensures Moves(p, d, schedule) <= 13 * p
    ensures var s := Exec(p, d, schedule);
            (forall i: nat :: i < p && s.pc[i] != Outside ==> Blocked(p, s, i)) ==>
            forall i: nat :: i < p ==>
              && s.episode[i] > e
              && (!Entered(d, i, e + 1) ==>
                    s.pc[i] == Outside && s.episode[i] == e + 1 && Entered(Step(p, s, i), i, e + 1))
  {
    var s, next := Exec(p, d, schedule), e + 1;
    MovesBounded(p, d, schedule);
    InvAfter(p, d, schedule);
    forall i: nat | i < p ensures Entered(s, i, e) { EnteredAfter(p, d, schedule, i, e); }
    forall i: nat | i < p ensures Entered(s, i, next) <==> Entered(d, i, next) { EnteredAfter(p, d, schedule, i, next); }
    if forall i: nat :: i < p ==> (s.pc[i] != Outside ==> Blocked(p, s, i)) { AllReturned(p, s, e); }
  }

  /** The barrier completes. From every reachable state in which all threads have entered episode e,
      in whatever order the threads inside wait take their steps, at most thirteen a thread are not
      those of a failed spin; and when no thread inside wait has such a step left, every thread has
      returned from episode e, and is outside and free to enter the next one unless it had before. */
  lemma {:induction false} BarrierCompletes(p: nat, s0: State, history: seq<nat>, schedule: seq<nat>, e: nat)
    requires Init(p, s0) && IsInside(p, Exec(p, s0, history), schedule)
    requires forall i: nat :: i < p ==> Entered(Exec(p, s0, history), i, e)
    ensures Moves(p, Exec(p, s0, history), schedule) <= 13 * p
    ensures var s := Exec(p, Exec(p, s0, history), schedule);
            (forall i: nat :: i < p && s.pc[i] != Outside ==> Blocked(p, s, i)) ==>
            forall i: nat :: i < p ==>
              && s.episode[i] > e
              && (!Entered(Exec(p, s0, history), i, e + 1) ==>
                    s.pc[i] == Outside && s.episode[i] == e + 1 && Entered(Step(p, s, i), i, e + 1))
  {
    InvHolds(p, s0, history);
    CompletesFrom(p, Exec(p, s0, history), schedule, e);
  }
}
