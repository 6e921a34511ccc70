/** The runs of the thread pool, counted from the calls and the steps: who works how often, and that
    every run comes to an end. */
module ThreadPoolRuns {
  import opened Arith
  import opened ThreadPool
  import opened Wrappers

  /** Of the calls of run that were accepted, those thread t belongs to: a call for num threads takes
      the threads below num, at least one of them and at most all n. */
  ghost function Called(n: nat, events: seq<Event>, t: nat): (k: nat)
  {
    if events == [] then 0 else
    var before, e := events[..|events| - 1], events[|events| - 1];
    Called(n, before, t) +
    match e
    case Run(num, task) =>
      var atLeastOne := if num < 1 then 1 else num;
      if CanRun(Exec(n, before), num, task) && t < atLeastOne && t < n then 1 else 0
    case Step(_) => 0
  }

  /** The step is taken. */
  ghost predicate Taken(s: State, t: nat) { |s.box| == |s.th| && CanStep(s, t) }

  /** How often thread t has done the work, and how often it has left its wait. */
  ghost function Worked(n: nat, events: seq<Event>, t: nat): (k: nat)
  {
    if events == [] then 0 else
    var before, e := events[..|events| - 1], events[|events| - 1];
    var s := Exec(n, before);
    Worked(n, before, t) + if e == Step(t) && Taken(s, t) && s.th[t].pc == Work then 1 else 0
  }

  ghost function Woke(n: nat, events: seq<Event>, t: nat): (k: nat)
  {
    if events == [] then 0 else
    var before, e := events[..|events| - 1], events[|events| - 1];
    var s := Exec(n, before);
    Woke(n, before, t) + if e == Step(t) && Taken(s, t) && s.th[t].pc == Wait then 1 else 0
  }

  lemma {:induction false} CalledIsCalls(n: nat, events: seq<Event>, t: nat)
    requires t < n
    ensures Calls(Exec(n, events).runs, t) == Called(n, events, t)
  {
    if events != [] {
      var before, e := events[..|events| - 1], events[|events| - 1];
      CalledIsCalls(n, before, t);
      InvHolds(n, before);
      var s := Exec(n, before);
      if e.Run? && CanRun(s, e.num, e.task) { CallsMore(s.runs, Size(n, e.num), t); }
    }
  }

  lemma {:induction false} AdvanceCounts(s: State, t: nat, u: nat)
    requires Taken(s, t) && u < |s.th|
    ensures var s' := Advance(s, t);
            && s'.th[u].ran == s.th[u].ran + (if u == t && s.th[t].pc == Work then 1 else 0)
            && s'.th[u].woken == s.th[u].woken + (if u == t && s.th[t].pc == Wait then 1 else 0)
  {
  }

  lemma {:induction false} HistoryCounts(n: nat, events: seq<Event>, t: nat)
    requires t < n
    ensures var s := Exec(n, events); |s.th| == n && s.th[t].ran == Worked(n, events, t) && s.th[t].woken == Woke(n, events, t)
  {
    InvHolds(n, events);
    if events != [] {
      var before, e := events[..|events| - 1], events[|events| - 1];
      HistoryCounts(n, before, t);
      InvHolds(n, before);
      var s := Exec(n, before);
      if e.Step? && Taken(s, e.t) { AdvanceCounts(s, e.t, t); }
    }
  }

  /** Over any sequence of runs in any interleaving: when the master is back, every thread has left
      its wait and done the work exactly once for each accepted call it belongs to. */
  lemma {:induction false} OncePerRun(n: nat, events: seq<Event>, t: nat)
    requires 0 < t < n && (var s := Exec(n, events); |s.th| > 0 && s.th[0].pc == Wait)
    ensures Worked(n, events, t) == Woke(n, events, t) == Called(n, events, t)
  {
    InvHolds(n, events);
    HistoryCounts(n, events, t);
    CalledIsCalls(n, events, t);
    ThreadPool.OncePerRun(n, events, t);
  }

  /** The master does the work once for each accepted call too, by the time it is back. */
  lemma {:induction false} MasterOncePerRun(n: nat, events: seq<Event>)
    requires n > 0 && (var s := Exec(n, events); |s.th| > 0 && s.th[0].pc == Wait)
    ensures Worked(n, events, 0) == Called(n, events, 0)
  {
    InvHolds(n, events);
    HistoryCounts(n, events, 0);
    CalledIsCalls(n, events, 0);
    assert ThreadInv(Exec(n, events), 0);
  }

  /** At no time has a thread worked more often than it was called. */
  lemma {:induction false} NeverTwice(n: nat, events: seq<Event>, t: nat)
    requires t < n
    ensures Worked(n, events, t) <= Called(n, events, t) && (t > 0 ==> Woke(n, events, t) <= Called(n, events, t))
  {
    InvHolds(n, events);
    HistoryCounts(n, events, t);
    CalledIsCalls(n, events, t);
    ThreadPool.NeverTwice(n, events, t);
  }

  /** A run is accepted exactly when the master is back; in busy-waiting mode it must have the size of
      the switch, and burnPower and beKind switch to the mode that is not on. */
  lemma {:induction false} RunAccepted(n: nat, events: seq<Event>, num: nat, task: Task)
    requires n > 0
    ensures var s, atLeastOne := Exec(n, events), if num < 1 then 1 else num;
            && |s.th| == n
            && (CanRun(s, num, task) <==>
                  && s.th[0].pc == Wait
                  && (s.masterFast != 0 ==> s.masterFast == if atLeastOne < n then atLeastOne else n)
                  && (task.SetFast? ==> task.on == (s.masterFast == 0)))
  {
    InvHolds(n, events);
  }

  /** The last accepted call of run. */
  ghost function LastRun(n: nat, events: seq<Event>): (r: Option<(nat, Task)>)
  {
    if events == [] then None else
    var before, e := events[..|events| - 1], events[|events| - 1];
    if e.Run? && CanRun(Exec(n, before), e.num, e.task) then Some((e.num, e.task)) else LastRun(n, before)
  }

  lemma {:induction false} LastRunHolds(n: nat, events: seq<Event>)
    ensures var s, r := Exec(n, events), LastRun(n, events);
            if r.Some? then s.runs != [] && s.task == r.value.1 && s.asked == if r.value.0 < n then r.value.0 else n
            else s.runs == []
  {
    if events != [] {
      LastRunHolds(n, events[..|events| - 1]);
      InvHolds(n, events[..|events| - 1]);
    }
  }

  /** burnPower leaves the number of threads it was asked for, cut to those there are, as the size of
      busy-waiting runs, even if that is none, and beKind leaves none; the threads of that size, and
      no others, then wait busily. */
  lemma {:induction false} SwitchTakesEffect(n: nat, events: seq<Event>)
    requires n > 0 && LastRun(n, events).Some? && LastRun(n, events).value.1.SetFast?
    requires var s := Exec(n, events); |s.th| > 0 && s.th[0].pc == Wait
    ensures var s, num := Exec(n, events), LastRun(n, events).value.0;
            && s.masterFast == (if LastRun(n, events).value.1.on then (if num < n then num else n) else 0)
            && |s.th| == n && forall t: nat :: 0 < t < n ==> (s.th[t].fast <==> t < s.masterFast)
  {
    InvHolds(n, events);
    LastRunHolds(n, events);
    var s := Exec(n, events);
    assert ThreadInv(s, 0);
    forall t: nat | 0 < t < n ensures s.th[t].fast <==> t < s.masterFast { Rested(s, t); }
  }

  /** The master is past the waits of its decascade only when every thread of the last call has done
      the work for it and all calls before. */
  lemma {:induction false} JoinWaitsForAll(n: nat, events: seq<Event>, t: nat)
    requires n > 0 && LastRun(n, events).Some? && 0 < t < n && t < LastRun(n, events).value.0
    requires var s := Exec(n, events); |s.th| > 0 && s.th[0].pc == Finish
    ensures Worked(n, events, t) == Woke(n, events, t) == Called(n, events, t)
  {
    InvHolds(n, events);
    LastRunHolds(n, events);
    HistoryCounts(n, events, t);
    CalledIsCalls(n, events, t);
    ThreadPool.JoinWaitsForAll(n, events, t);
    assert ThreadInv(Exec(n, events), t);
  }

  // ----- every run ends

  ghost function Lefts(s: State): (ks: seq<nat>)
    requires forall t :: 0 <= t < |s.th| ==> Far(s.th[t]) <= 11
    ensures |ks| == |s.th|
  {
    seq(|s.th|, t requires 0 <= t < |s.th| => 11 - Far(s.th[t]))
  }

  lemma {:induction false} StepLowers(s: State, t: nat)
    requires Inv(s) && CanStep(s, t)
    ensures Sum(Lefts(Advance(s, t))) < Sum(Lefts(s))
  {
    var s' := Advance(s, t);
    var a, b := Lefts(s), Lefts(s');
    StepperIsSet(s, t);
    Forward(s, t);
    forall u: nat | u < |s.th| && u != t ensures b[u] == a[u] { StepTouches(s, t, u); }
    assert b == a[t := b[t]];
    SumUpdate(a, t, b[t]);
  }

  /** Steps only, each taken when its turn comes. */
  ghost predicate IsSteps(n: nat, history: seq<Event>, steps: seq<nat>)
  {
    steps == [] ||
    (var before := steps[..|steps| - 1];
     IsSteps(n, history, before) && Taken(Exec(n, history + Events(before)), steps[|steps| - 1]))
  }

  function Events(steps: seq<nat>): (es: seq<Event>)
  {
    seq(|steps|, i requires 0 <= i < |steps| => Step(steps[i]))
  }

  lemma {:induction false} EventsSnoc(n: nat, history: seq<Event>, steps: seq<nat>)
    requires steps != []
    ensures var before, t := steps[..|steps| - 1], steps[|steps| - 1];
            var s := Exec(n, history + Events(before));
            Exec(n, history + Events(steps)) == if Taken(s, t) then Advance(s, t) else s
  {
    var before := steps[..|steps| - 1];
    assert (history + Events(steps))[..|history| + |before|] == history + Events(before);
  }

  lemma {:induction false} StepsLower(n: nat, history: seq<Event>, steps: seq<nat>)
    requires IsSteps(n, history, steps)
    ensures Sum(Lefts(Exec(n, history + Events(steps)))) + |steps| <= Sum(Lefts(Exec(n, history)))
  {
    if steps == [] {
      assert history + Events(steps) == history;
    } else {
      var before, t := steps[..|steps| - 1], steps[|steps| - 1];
      StepsLower(n, history, before);
      InvHolds(n, history + Events(before));
      EventsSnoc(n, history, steps);
      StepLowers(Exec(n, history + Events(before)), t);
    }
  }

  /** A run completes: from every reachable state, whatever the order of steps, at most eleven a thread
      can be taken, and when none is left the master is back. */
  lemma {:induction false} RunCompletes(n: nat, history: seq<Event>, steps: seq<nat>)
    requires n > 0 && IsSteps(n, history, steps)
    ensures |steps| <= 11 * n
    ensures var s := Exec(n, history + Events(steps));
            |s.box| == |s.th| == n && ((forall t :: !CanStep(s, t)) ==> s.th[0].pc == Wait)
  {
    var d := Exec(n, history);
    InvHolds(n, history);
    StepsLower(n, history, steps);
    SumBound(Lefts(d), seq(n, _ => 11));
    SumOfSame(n, 11);
    MulIsProduct(n, 11);
    InvHolds(n, history + Events(steps));
    if Exec(n, history + Events(steps)).th[0].pc != Wait { var u := NoDeadlock(n, history + Events(steps)); }
  }
}
