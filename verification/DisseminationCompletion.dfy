/** The dissemination barrier comes to an end: once all threads have entered an episode, boundedly
    many steps can be taken that are not those of a failed spin, and when there are none left all
    threads have returned from it. */
module DisseminationCompletion {
  import opened Arith
  import opened Dissemination

  /** The steps a thread has still to take, not counting those of a failed spin, in r rounds. */
  function Left(rounds: nat, pc: PC): (k: nat)
    requires pc.Store? || pc.Spin? ==> pc.r < rounds
    ensures k <= 2 * rounds + 1
  {
    match pc
    case Outside => 0
    case Store(r) => 2 * (rounds - r) + 1
    case Spin(r) => 2 * (rounds - r)
    case Flip => 1
  }

  ghost function Lefts(p: nat, s: State): (ks: seq<nat>)
    requires WellFormed(p, s)
    ensures |ks| == p
  {
    seq(p, i requires 0 <= i < p => Left(FastLog2Up(p), s.pc[i]))
  }

  ghost function Measure(p: nat, s: State): (m: nat)
    requires WellFormed(p, s)
  {
    Sum(Lefts(p, s))
  }

  /** A thread inside wait whose next step is not that of a failed spin. */
  ghost predicate CanMove(p: nat, s: State, t: nat)
    requires WellFormed(p, s)
  {
    t < p && s.pc[t] != Outside && Step(p, s, t) != s
  }

  lemma {:induction false} OwnStep(p: nat, s: State, t: nat)
    requires WellFormed(p, s) && t < p && s.pc[t] != Outside
    ensures var s' := Step(p, s, t);
            && s'.pc == s.pc[t := s'.pc[t]]
            && Left(FastLog2Up(p), s'.pc[t]) <= Left(FastLog2Up(p), s.pc[t]) - if CanMove(p, s, t) then 1 else 0
  {
    assert s.pc[t := s.pc[t]] == s.pc;
  }

  lemma {:induction false} StepLowers(p: nat, s: State, t: nat)
    requires WellFormed(p, s) && t < p && s.pc[t] != Outside
    ensures Measure(p, Step(p, s, t)) <= Measure(p, s) - if CanMove(p, s, t) then 1 else 0
  {
    OwnStep(p, s, t);
    var a, b := Lefts(p, s), Lefts(p, Step(p, s, t));
    assert b == a[t := b[t]];
    SumUpdate(a, t, b[t]);
  }

  /** Nobody enters anew: each step is of a thread inside wait. */
  ghost predicate IsInside(p: nat, s: State, schedule: seq<nat>)
    requires WellFormed(p, s)
  {
    schedule == [] ||
    (var before, t := schedule[..|schedule| - 1], schedule[|schedule| - 1];
     IsInside(p, s, before) && t < p && Exec(p, s, before).pc[t] != Outside)
  }

  ghost function Moves(p: nat, s: State, schedule: seq<nat>): (k: nat)
    requires WellFormed(p, s)
  {
    if schedule == [] then 0 else
    var before, t := schedule[..|schedule| - 1], schedule[|schedule| - 1];
    Moves(p, s, before) + if CanMove(p, Exec(p, s, before), t) then 1 else 0
  }

  lemma {:induction false} RunLowers(p: nat, s: State, schedule: seq<nat>)
    requires WellFormed(p, s) && IsInside(p, s, schedule)
    ensures Measure(p, Exec(p, s, schedule)) + Moves(p, s, schedule) <= Measure(p, s)
  {
    if schedule != [] {
      var before := schedule[..|schedule| - 1];
      RunLowers(p, s, before);
      StepLowers(p, Exec(p, s, before), schedule[|schedule| - 1]);
    }
  }

  lemma {:induction false} MeasureBound(p: nat, s: State)
    requires WellFormed(p, s)
    ensures Measure(p, s) <= Mul(p, 2 * FastLog2Up(p) + 1)
  {
    var c := 2 * FastLog2Up(p) + 1;
    SumBound(Lefts(p, s), seq(p, _ => c));
    SumOfSame(p, c);
  }

  lemma {:induction false} InvAfter(p: nat, s: State, schedule: seq<nat>)
    requires Inv(p, s)
    ensures Inv(p, Exec(p, s, schedule))
  {
    if schedule != [] {
      var before, t := schedule[..|schedule| - 1], schedule[|schedule| - 1];
      InvAfter(p, s, before);
      if t < p { StepKeepsInv(p, Exec(p, s, before), t); }
    }
  }

  lemma {:induction false} EnteredStays(p: nat, s: State, t: nat, i: nat, e: nat)
    requires WellFormed(p, s) && t < p && i < p && s.pc[t] != Outside
    ensures Entered(Step(p, s, t), i, e) <==> Entered(s, i, e)
  {
    if t != i { assert Step(p, s, t).pc[i] == s.pc[i] && Step(p, s, t).episode[i] == s.episode[i]; }
  }

  lemma {:induction false} EnteredAfter(p: nat, s: State, schedule: seq<nat>, i: nat, e: nat)
    requires WellFormed(p, s) && IsInside(p, s, schedule) && i < p
    ensures Entered(Exec(p, s, schedule), i, e) <==> Entered(s, i, e)
  {
    if schedule != [] {
      var before := schedule[..|schedule| - 1];
      EnteredAfter(p, s, before, i, e);
      EnteredStays(p, Exec(p, s, before), schedule[|schedule| - 1], i, e);
    }
  }

  /** While a thread is inside the slowest episode, and all have entered that, some thread inside
      wait can move. */
  lemma {:induction false} SomeoneMoves(p: nat, s: State, e: nat, k: nat) returns (i: nat)
    requires Inv(p, s) && k < p && s.episode[k] <= e && forall i: nat :: i < p ==> Entered(s, i, e)
    ensures CanMove(p, s, i)
  {
    i := Hindmost(p, s, p);
    assert AtOrBefore(s, i, k) && Entered(s, i, e);
    HindmostCanMove(p, s, i);
  }

  /** A call of wait is accepted at any time. */
  lemma {:induction false} WaitEnters(p: nat, s: State, i: nat)
    requires WellFormed(p, s) && i < p && s.pc[i] == Outside
    ensures Entered(Step(p, s, i), i, s.episode[i])
  {
  }

  lemma {:induction false} MovesBounded(p: nat, s: State, schedule: seq<nat>)
    requires WellFormed(p, s) && IsInside(p, s, schedule)
    ensures Moves(p, s, schedule) <= p * (2 * FastLog2Up(p) + 1)
  {
    RunLowers(p, s, schedule);
    MeasureBound(p, s);
    MulIsProduct(p, 2 * FastLog2Up(p) + 1);
  }

  lemma {:induction false} AllReturned(p: nat, s: State, e: nat)
    requires Inv(p, s) && (forall i: nat :: i < p ==> Entered(s, i, e))
    requires forall i: nat :: i < p ==> !CanMove(p, s, i)
    ensures forall i: nat :: i < p ==>
              && s.episode[i] > e
              && (!Entered(s, i, e + 1) ==>
                    s.pc[i] == Outside && s.episode[i] == e + 1 && Entered(Step(p, s, i), i, e + 1))
  {
    if k: nat :| k < p && s.episode[k] <= e {
      var i := SomeoneMoves(p, s, e, k);
    } else {
      forall i: nat | i < p && s.pc[i] == Outside ensures Entered(Step(p, s, i), i, s.episode[i]) { WaitEnters(p, s, i); }
    }
  }

  lemma {:induction false} CompletesFrom(p: nat, d: State, schedule: seq<nat>, e: nat)
    requires Inv(p, d) && IsInside(p, d, schedule) && forall i: nat :: i < p ==> Entered(d, i, e)
    ensures Moves(p, d, schedule) <= p * (2 * FastLog2Up(p) + 1)
    ensures var s := Exec(p, d, schedule);
            (forall i: nat :: i < p ==> !CanMove(p, s, i)) ==>
            forall i: nat :: i < p ==>
              && s.episode[i] > e
              && (!Entered(d, i, e + 1) ==>
                    s.pc[i] == Outside && s.episode[i] == e + 1 && Entered(Step(p, s, i), i, e + 1))
  {
    var s, next := Exec(p, d, schedule), e + 1;
    MovesBounded(p, d, schedule);
    InvAfter(p, d, schedule);
    forall i: nat | i < p ensures Entered(s, i, e) { EnteredAfter(p, d, schedule, i, e); }
    forall i: nat | i < p ensures Entered(s, i, next) <==> Entered(d, i, next) { EnteredAfter(p, d, schedule, i, next); }
    if forall i: nat :: i < p ==> !CanMove(p, s, i) { AllReturned(p, s, e); }
  }

  /** The barrier completes. From every reachable state in which all threads have entered episode e,
      in whatever order the threads inside wait take their steps, at most two a round and one more
      of each thread are not those of a failed spin; and when no thread inside wait has such a step
      left, every thread has returned from episode e, and is outside and free to enter the next
      one unless it had before. */
  lemma {:induction false} BarrierCompletes(p: nat, s0: State, history: seq<nat>, schedule: seq<nat>, e: nat)
    requires Init(p, s0) && IsInside(p, Exec(p, s0, history), schedule)
    requires forall i: nat :: i < p ==> Entered(Exec(p, s0, history), i, e)
    ensures Moves(p, Exec(p, s0, history), schedule) <= p * (2 * FastLog2Up(p) + 1)
    ensures var s := Exec(p, Exec(p, s0, history), schedule);
            (forall i: nat :: i < p ==> !CanMove(p, s, i)) ==>
            forall i: nat :: i < p ==>
              && s.episode[i] > e
              && (!Entered(Exec(p, s0, history), i, e + 1) ==>
                    s.pc[i] == Outside && s.episode[i] == e + 1 && Entered(Step(p, s, i), i, e + 1))
  {
    InvHolds(p, s0, history);
    CompletesFrom(p, Exec(p, s0, history), schedule, e);
  }
}
