/** Exclusive marking comes to an end: whatever the order of steps, boundedly many can be taken, and
    when none is left every thread has its answer. */
module ExclusiveCompletion {
  import opened Arith
  import opened Exclusive

  /** The steps a thread has left in a phase: one an item, in the second phase up to two. */
  function StepsLeft(phase: Phase, items: nat, c: PC): (k: nat)
  {
    match c
    case Mark1(i) => if phase == One && i < items then items - i else 0
    case Load2(i) => if phase == Two && i < items then 2 * (items - i) else 0
    case Min2(i) => if phase == Two && i < items then 2 * (items - i) - 1 else 0
    case Own(i) => if phase == Three then (if i < items then items - i else 0) + 1 else 0
    case Answer(_) => 0
  }

  ghost function Lefts(rs: seq<Request>, s: State): (ks: seq<nat>)
    requires |s.pc| == |rs|
    ensures |ks| == |rs|
  {
    seq(|rs|, t requires 0 <= t < |rs| => StepsLeft(s.phase, |rs[t].items|, s.pc[t]))
  }

  /** What a phase takes from its start. */
  ghost function Whole(rs: seq<Request>, phase: Phase): (k: nat)
  {
    Sum(seq(|rs|, t requires 0 <= t < |rs| =>
      match phase case One => |rs[t].items| case Two => 2 * |rs[t].items| case Three => |rs[t].items| + 1))
  }

  ghost function Measure(rs: seq<Request>, s: State): (m: nat)
    requires |s.pc| == |rs|
  {
    Sum(Lefts(rs, s)) +
    match s.phase case One => Whole(rs, Two) + Whole(rs, Three) + 2 case Two => Whole(rs, Three) + 1 case Three => 0
  }

  lemma {:induction false} ItemStep(rs: seq<Request>, s: State, t: nat)
    requires Fits(|s.lk|, rs) && |s.pc| == |rs| && Enabled(rs, s, Step(t)) && PcInv(s.phase, rs[t], s.pc[t])
    ensures var s' := Advance(s, t, rs[t]);
            && s'.phase == s.phase && |s'.pc| == |rs| && (forall u :: 0 <= u < |rs| && u != t ==> s'.pc[u] == s.pc[u])
            && StepsLeft(s.phase, |rs[t].items|, s'.pc[t]) < StepsLeft(s.phase, |rs[t].items|, s.pc[t])
  {
  }

  lemma {:induction false} StepLowers(rs: seq<Request>, s: State, t: nat)
    requires Fits(|s.lk|, rs) && |s.pc| == |rs| && Enabled(rs, s, Step(t)) && PcInv(s.phase, rs[t], s.pc[t])
    ensures |Apply(rs, s, Step(t)).pc| == |rs| && Measure(rs, Apply(rs, s, Step(t))) < Measure(rs, s)
  {
    ItemStep(rs, s, t);
    var a, b := Lefts(rs, s), Lefts(rs, Apply(rs, s, Step(t)));
    assert b == a[t := b[t]];
    SumUpdate(a, t, b[t]);
  }

  lemma {:induction false} BarrierLowers(rs: seq<Request>, s: State)
    requires Enabled(rs, s, Barrier)
    ensures |Apply(rs, s, Barrier).pc| == |rs| && Measure(rs, Apply(rs, s, Barrier)) < Measure(rs, s)
  {
    var s' := Apply(rs, s, Barrier);
    assert Lefts(rs, s') == seq(|rs|, t requires 0 <= t < |rs| =>
      match s'.phase case One => |rs[t].items| case Two => 2 * |rs[t].items| case Three => |rs[t].items| + 1);
  }

  /** Each event is enabled when its turn comes. */
  ghost predicate IsRun(rs: seq<Request>, before: seq<int>, events: seq<Event>)
  {
    events == [] ||
    (var front := events[..|events| - 1];
     IsRun(rs, before, front) && Enabled(rs, Exec(rs, before, front), events[|events| - 1]))
  }

  lemma {:induction false} RunLowers(n: nat, rs: seq<Request>, before: seq<int>, events: seq<Event>)
    requires Fits(n, rs) && |before| == n && IsRun(rs, before, events)
    ensures |Exec(rs, before, events).pc| == |rs|
    ensures Measure(rs, Exec(rs, before, events)) + |events| <= Measure(rs, Exec(rs, before, []))
  {
    if events != [] {
      var front, e := events[..|events| - 1], events[|events| - 1];
      RunLowers(n, rs, before, front);
      InvHolds(n, rs, before, front);
      var s := Exec(rs, before, front);
      if e.Step? { assert PcInv(s.phase, rs[e.t], s.pc[e.t]); StepLowers(rs, s, e.t); } else { BarrierLowers(rs, s); }
    }
  }

  /** Until all threads have their answers some event is enabled. */
  lemma {:induction false} NotStuck(rs: seq<Request>, s: State)
    requires |s.pc| == |rs| && forall e :: !Enabled(rs, s, e)
    ensures s.phase == Three && forall t :: 0 <= t < |rs| ==> s.pc[t].Answer?
  {
    assert !Enabled(rs, s, Barrier);
    forall t: nat | t < |rs| ensures Through(s.phase, rs[t], s.pc[t]) { assert !Enabled(rs, s, Step(t)); }
  }

  /** The marking completes: no run is longer than a number of the requests, and one that cannot go on
      has answered every thread. */
  lemma {:induction false} MarkingCompletes(n: nat, rs: seq<Request>, before: seq<int>, events: seq<Event>)
    requires Fits(n, rs) && |before| == n && IsRun(rs, before, events)
    ensures |events| <= Measure(rs, Exec(rs, before, []))
    ensures var s := Exec(rs, before, events);
            (forall e :: !Enabled(rs, s, e)) ==> |s.pc| == |rs| && forall t :: 0 <= t < |rs| ==> s.pc[t].Answer?
  {
    RunLowers(n, rs, before, events);
    var s := Exec(rs, before, events);
    if forall e :: !Enabled(rs, s, e) { NotStuck(rs, s); }
  }
}
