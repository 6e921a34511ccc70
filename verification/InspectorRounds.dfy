/** The inspector over all rounds: what the threads execute are exactly the iterations of all loops,
    and the rounds come to an end. */
module InspectorRounds {
  import opened Arith
  import opened Inspector

  // ----- what is executed

  /** All iterations of the first k loops, loop by loop. */
  function Iterations(ls: seq<Loop>, k: nat): (items: seq<Item>)
    requires k <= |ls|
  {
    if k == 0 then []
    else Iterations(ls, k - 1) + seq(ls[k - 1].size, j => Item(ls[k - 1].start + j, ls[k - 1].src))
  }

  /** What the slots hold for thread k to execute next. */
  ghost function NextItem(s: State, k: nat): (i: Item)
    requires k < |s.ts|
  {
    var e := s.ts[k].e;
    if e < |s.itvalue| && e < |s.source| then Item(s.itvalue[e], s.source[e]) else Item(0, 0)
  }

  /** The items executed in a run, in order. */
  ghost function Executed(itsize: nat, ls: seq<Loop>, junk: seq<int>, events: seq<Event>): (items: seq<Item>)
    requires |ls| > 0
  {
    if events == [] then [] else
    var before, e := events[..|events| - 1], events[|events| - 1];
    var s := Exec(itsize, ls, junk, before);
    if e.Execute? && Enabled(itsize, s, e) then Executed(itsize, ls, junk, before) + [NextItem(s, e.k)]
    else Executed(itsize, ls, junk, before)
  }

  /** All flattened iterations. */
  ghost function Flats(ls: seq<Loop>): (items: seq<Item>)
    ensures |items| == Total(ls)
  {
    seq(Total(ls), g requires 0 <= g < Total(ls) => Flat(ls, g))
  }

  /** Those of the first g items that are marked. */
  ghost function Marked(items: seq<Item>, ran: seq<nat>, g: nat): (r: multiset<Item>)
    requires g <= |ran| == |items|
  {
    if g == 0 then multiset{}
    else Marked(items, ran, g - 1) + if ran[g - 1] > 0 then multiset{items[g - 1]} else multiset{}
  }

  lemma {:induction false} SwapAdded<T>(a: multiset<T>, b: multiset<T>, c: multiset<T>)
    ensures a + b + c == a + c + b
  {
  }

  lemma {:induction false} MarkBelow(items: seq<Item>, ran: seq<nat>, g: nat, n: nat)
    requires n <= g < |ran| == |items|
    ensures Marked(items, ran[g := 1], n) == Marked(items, ran, n)
  {
    if n > 0 { MarkBelow(items, ran, g, n - 1); }
  }

  lemma {:induction false} MarkOne(items: seq<Item>, ran: seq<nat>, g: nat, n: nat)
    requires g < n <= |ran| == |items| && ran[g] == 0
    ensures Marked(items, ran[g := 1], n) == Marked(items, ran, n) + multiset{items[g]}
  {
    if n - 1 == g {
      MarkBelow(items, ran, g, g);
      assert Marked(items, ran, n) == Marked(items, ran, g) + multiset{};
    } else {
      MarkOne(items, ran, g, n - 1);
      SwapAdded(Marked(items, ran, n - 1), multiset{items[g]}, if ran[n - 1] > 0 then multiset{items[n - 1]} else multiset{});
    }
  }

  lemma {:induction false} MarkNone(items: seq<Item>, ran: seq<nat>, n: nat)
    requires n <= |ran| == |items| && forall g :: 0 <= g < |ran| ==> ran[g] == 0
    ensures Marked(items, ran, n) == multiset{}
  {
    if n > 0 { MarkNone(items, ran, n - 1); }
  }

  lemma {:induction false} MarkAll(items: seq<Item>, ran: seq<nat>, n: nat)
    requires n <= |ran| == |items| && forall g :: 0 <= g < |ran| ==> ran[g] == 1
    ensures Marked(items, ran, n) == multiset(items[..n])
  {
    if n > 0 {
      MarkAll(items, ran, n - 1);
      assert items[..n] == items[..n - 1] + [items[n - 1]];
    }
  }

  /** A thread executes the flattened iteration of its slot, for the first time. */
  lemma {:induction false} ExecutesNext(itsize: nat, ls: seq<Loop>, s: State, k: nat)
    requires Inv(itsize, ls, s) && Enabled(itsize, s, Execute(k))
    ensures var g := s.base + s.ts[k].e;
            && g < Total(ls) && s.ran[g] == 0 && NextItem(s, k) == Flat(ls, g)
            && Apply(itsize, ls, s, Execute(k)).ran == s.ran[g := 1]
  {
    var g := s.base + s.ts[k].e;
    assert ThreadInv(itsize, ls, s, k);
    assert RanInv(itsize, ls, s, g);
    assert SlotInv(itsize, ls, s, g);
    assert ThreadInv(itsize, ls, s, Owner(ls, |ls|, g));
  }

  lemma {:induction false} OthersRunNothing(itsize: nat, ls: seq<Loop>, s: State, e: Event)
    requires |s.ts| == |ls| > 0 && Enabled(itsize, s, e) && !e.Execute?
    ensures Apply(itsize, ls, s, e).ran == s.ran
  {
  }

  lemma {:induction false} ExecutedIsRan(itsize: nat, ls: seq<Loop>, junk: seq<int>, events: seq<Event>)
    requires |ls| > 0 && |junk| == itsize > 0
    ensures |Exec(itsize, ls, junk, events).ran| == Total(ls)
    ensures multiset(Executed(itsize, ls, junk, events)) == 
            Marked(Flats(ls), Exec(itsize, ls, junk, events).ran, Total(ls))
  {
    InvHolds(itsize, ls, junk, events);
    if events == [] {
      MarkNone(Flats(ls), Exec(itsize, ls, junk, []).ran, Total(ls));
    } else {
      var before, e := events[..|events| - 1], events[|events| - 1];
      ExecutedIsRan(itsize, ls, junk, before);
      InvHolds(itsize, ls, junk, before);
      var s := Exec(itsize, ls, junk, before);
      if Enabled(itsize, s, e) {
        if e.Execute? {
          ExecutesNext(itsize, ls, s, e.k);
          MarkOne(Flats(ls), s.ran, s.base + s.ts[e.k].e, Total(ls));
        } else {
          OthersRunNothing(itsize, ls, s, e);
        }
      }
    }
  }

  lemma {:induction false} IterationsLength(ls: seq<Loop>, k: nat)
    requires k <= |ls|
    ensures |Iterations(ls, k)| == Prefix(ls, k)
  {
    if k > 0 { IterationsLength(ls, k - 1); }
  }

  /** The flattened iterations are the iterations of all loops, one loop after the other. */
  lemma {:induction false} FlatIsIteration(ls: seq<Loop>, k: nat, g: nat)
    requires k <= |ls| && g < Prefix(ls, k)
    ensures g < Total(ls) && |Iterations(ls, k)| == Prefix(ls, k) && Iterations(ls, k)[g] == Flat(ls, g)
  {
    IterationsLength(ls, k);
    IterationsLength(ls, k - 1);
    if g < Prefix(ls, k - 1) {
      FlatIsIteration(ls, k - 1, g);
    } else {
      FlatIsThreadIteration(ls, k - 1, g - Prefix(ls, k - 1));
    }
  }

  /** Over all rounds and in every interleaving, the items executed by the time the block is over are
      exactly the iterations of all loops, each once. */
  lemma {:induction false} ExecutesAllIterations(itsize: nat, ls: seq<Loop>, junk: seq<int>, events: seq<Event>)
    requires |ls| > 0 && |junk| == itsize > 0 && Exec(itsize, ls, junk, events).phase == Over
    ensures multiset(Executed(itsize, ls, junk, events)) == multiset(Iterations(ls, |ls|))
  {
    var s := Exec(itsize, ls, junk, events);
    ExecutedIsRan(itsize, ls, junk, events);
    forall g | 0 <= g < |s.ran| ensures s.ran[g] == 1 { EachIterationOnce(itsize, ls, junk, events, g); }
    MarkAll(Flats(ls), s.ran, Total(ls));
    IterationsLength(ls, |ls|);
    forall g: nat | g < Total(ls) ensures Flats(ls)[g] == Iterations(ls, |ls|)[g] { FlatIsIteration(ls, |ls|, g); }
    assert Flats(ls)[..Total(ls)] == Iterations(ls, |ls|);
  }

  // ----- the rounds end

  /** The steps a thread has left to inspect, and to execute, in a round. */
  function InspectLeft(th: Thread): (k: nat)
  {
    if th.open then 1 + (if th.myDone + th.i < th.size then th.size - th.myDone - th.i else 0) else 0
  }

  function ExecuteLeft(itsize: nat, th: Thread): (k: nat) { if th.e < itsize then itsize - th.e else 0 }

  ghost function InspectLefts(ts: seq<Thread>): (ks: seq<nat>)
    ensures |ks| == |ts|
  {
    seq(|ts|, k requires 0 <= k < |ts| => InspectLeft(ts[k]))
  }

  ghost function ExecuteLefts(itsize: nat, ts: seq<Thread>): (ks: seq<nat>)
    ensures |ks| == |ts|
  {
    seq(|ts|, k requires 0 <= k < |ts| => ExecuteLeft(itsize, ts[k]))
  }

  ghost function RoundLeft(itsize: nat, s: State): (k: nat)
  {
    match s.phase
    case Inspecting => Sum(InspectLefts(s.ts)) + Mul(|s.ts|, itsize) + 2
    case Executing => Sum(ExecuteLefts(itsize, s.ts)) + 1
    case Over => 0
  }

  /** More than any round takes. */
  ghost function Cap(itsize: nat, ls: seq<Loop>): (k: nat) { Mul(|ls|, Total(ls) + 1) + Mul(|ls|, itsize) + 3 }

  ghost function Measure(itsize: nat, ls: seq<Loop>, s: State): (m: nat)
  {
    Mul(if s.base < Total(ls) then Total(ls) - s.base else 0, Cap(itsize, ls)) + RoundLeft(itsize, s)
  }

  lemma {:induction false} WriteLowers(itsize: nat, ls: seq<Loop>, s: State, e: Event)
    requires |s.ts| == |ls| > 0 && Enabled(itsize, s, e) && (e.Write? || e.Close?)
    ensures Measure(itsize, ls, Apply(itsize, ls, s, e)) < Measure(itsize, ls, s)
  {
    var s' := Apply(itsize, ls, s, e);
    var a, b := InspectLefts(s.ts), InspectLefts(s'.ts);
    assert b == a[e.k := b[e.k]];
    SumUpdate(a, e.k, b[e.k]);
  }

  lemma {:induction false} ExecuteLowers(itsize: nat, ls: seq<Loop>, s: State, k: nat)
    requires |s.ts| == |ls| > 0 && Enabled(itsize, s, Execute(k))
    ensures Measure(itsize, ls, Apply(itsize, ls, s, Execute(k))) < Measure(itsize, ls, s)
  {
    var s' := Apply(itsize, ls, s, Execute(k));
    var a, b := ExecuteLefts(itsize, s.ts), ExecuteLefts(itsize, s'.ts);
    assert b == a[k := b[k]];
    SumUpdate(a, k, b[k]);
  }

  lemma {:induction false} ExecuteBound(itsize: nat, ts: seq<Thread>)
    ensures Sum(ExecuteLefts(itsize, ts)) <= Mul(|ts|, itsize)
  {
    SumBound(ExecuteLefts(itsize, ts), seq(|ts|, _ => itsize));
    SumOfSame(|ts|, itsize);
  }

  lemma {:induction false} BarrierLowers(itsize: nat, ls: seq<Loop>, s: State)
    requires |s.ts| == |ls| > 0 && Enabled(itsize, s, Barrier)
    ensures Measure(itsize, ls, Apply(itsize, ls, s, Barrier)) < Measure(itsize, ls, s)
  {
    ExecuteBound(itsize, s.ts);
  }

  lemma {:induction false} RoundIsCapped(itsize: nat, ls: seq<Loop>, s: State)
    requires Inv(itsize, ls, s)
    ensures RoundLeft(itsize, s) < Cap(itsize, ls)
  {
    ExecuteBound(itsize, s.ts);
    forall k: nat | k < |ls| ensures InspectLefts(s.ts)[k] <= Total(ls) + 1 {
      assert ThreadInv(itsize, ls, s, k);
      PrefixMonotone(ls, k + 1, |ls|);
    }
    SumBound(InspectLefts(s.ts), seq(|ls|, _ => Total(ls) + 1));
    SumOfSame(|ls|, Total(ls) + 1);
  }

  lemma {:induction false} NextLowers(itsize: nat, ls: seq<Loop>, s: State)
    requires Inv(itsize, ls, s) && Enabled(itsize, s, Next)
    ensures Measure(itsize, ls, Apply(itsize, ls, s, Next)) < Measure(itsize, ls, s)
  {
    var s', cap := Apply(itsize, ls, s, Next), Cap(itsize, ls);
    StepKeepsInv(itsize, ls, s, Next);
    RoundIsCapped(itsize, ls, s');
    var before, after := Total(ls) - s.base, if s'.base < Total(ls) then Total(ls) - s'.base else 0;
    MulMonotone(after + 1, before, cap);
    assert Mul(after + 1, cap) == Mul(after, cap) + cap;
  }

  /** Each event is enabled when its turn comes. */
  ghost predicate IsRun(itsize: nat, ls: seq<Loop>, junk: seq<int>, events: seq<Event>)
    requires |ls| > 0
  {
    events == [] ||
    (var before := events[..|events| - 1];
     IsRun(itsize, ls, junk, before) && Enabled(itsize, Exec(itsize, ls, junk, before), events[|events| - 1]))
  }

  lemma {:induction false} EventLowers(itsize: nat, ls: seq<Loop>, s: State, e: Event)
    requires Inv(itsize, ls, s) && Enabled(itsize, s, e)
    ensures Measure(itsize, ls, Apply(itsize, ls, s, e)) < Measure(itsize, ls, s)
  {
    match e
    case Write(_) => WriteLowers(itsize, ls, s, e);
    case Close(_) => WriteLowers(itsize, ls, s, e);
    case Barrier => BarrierLowers(itsize, ls, s);
    case Execute(k) => ExecuteLowers(itsize, ls, s, k);
    case Next => NextLowers(itsize, ls, s);
  }

  lemma {:induction false} RunLowers(itsize: nat, ls: seq<Loop>, junk: seq<int>, events: seq<Event>)
    requires |ls| > 0 && |junk| == itsize > 0 && IsRun(itsize, ls, junk, events)
    ensures Measure(itsize, ls, Exec(itsize, ls, junk, events)) + |events| <= Measure(itsize, ls, Begin(itsize, ls, junk))
  {
    if events != [] {
      var before := events[..|events| - 1];
      RunLowers(itsize, ls, junk, before);
      InvHolds(itsize, ls, junk, before);
      EventLowers(itsize, ls, Exec(itsize, ls, junk, before), events[|events| - 1]);
    }
  }

  /** The block completes: no run is longer than a number of the loops and the slots, and one that
      cannot go on is over, with all iterations of all loops executed. */
  lemma {:induction false} BlockCompletes(itsize: nat, ls: seq<Loop>, junk: seq<int>, events: seq<Event>)
    requires |ls| > 0 && |junk| == itsize > 0 && IsRun(itsize, ls, junk, events)
    ensures |events| <= Measure(itsize, ls, Begin(itsize, ls, junk))
    ensures (forall e :: !Enabled(itsize, Exec(itsize, ls, junk, events), e)) ==>
              && Exec(itsize, ls, junk, events).phase == Over
              && multiset(Executed(itsize, ls, junk, events)) == multiset(Iterations(ls, |ls|))
  {
    RunLowers(itsize, ls, junk, events);
    if Exec(itsize, ls, junk, events).phase == Over {
      ExecutesAllIterations(itsize, ls, junk, events);
    } else {
      var e := NotStuck(itsize, ls, junk, events);
    }
  }
}
