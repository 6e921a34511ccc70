/** The MCS tree barrier: threads arrive up a 4-ary tree of childnotready slots and are woken
    down a binary tree of parentsense words.

    One call of Step is one atomic access of one thread; a run is an arbitrary schedule. */
module Mcs {
  import opened Wrappers

  /** The program points of wait. Check reads one childnotready slot of the spin condition, Reset
      restores one, Signal clears the slot in the parent, Await spins on parentsense, Wake writes
      one wake-up child, Flip inverts the sense and returns. */
  datatype PC = Outside | Check(j: nat) | Reset(j: nat) | Signal | Await | Wake(j: nat) | Flip

  datatype Slot = Slot(thread: nat, j: nat)

  /** childnotready, parentsense and sense are fields of the source; episode counts returns. */
  datatype State = State(
    episode: seq<nat>,
    pc: seq<PC>,
    sense: seq<bool>,
    childnotready: map<Slot, bool>,
    parentsense: seq<bool>)

  function Child(i: nat, j: nat): (c: nat) { 4 * i + j + 1 }

  function WakeChild(i: nat, j: nat): (c: nat) { 2 * i + 1 + j }

  /** The slot a thread clears on arrival (parentpointer). */
  function ParentSlot(i: nat): (s: Slot)
    requires i > 0
    ensures s.j < 4 && Child(s.thread, s.j) == i && s.thread < i
  {
    Slot((i - 1) / 4, (i - 1) % 4)
  }

  function WakeParent(i: nat): (w: nat)
    requires i > 0
    ensures w < i
    ensures WakeChild(w, WakeIndex(i)) == i
  {
    (i - 1) / 2
  }

  function WakeIndex(i: nat): (j: nat)
    requires i > 0
    ensures j < 2
  {
    (i - 1) % 2
  }

  /** Each non-root thread owns exactly one arrival slot and exactly one wake-up parent. */
  lemma {:induction false} SlotsOwnedOnce(i: nat)
    requires i > 0
    ensures forall n: nat, j: nat :: j < 4 && Child(n, j) == i ==> Slot(n, j) == ParentSlot(i)
    ensures forall n: nat, j: nat :: j < 2 && WakeChild(n, j) == i ==> n == WakeParent(i) && j == WakeIndex(i)
  {
    forall n: nat, j: nat | j < 4 && Child(n, j) == i ensures Slot(n, j) == ParentSlot(i) {
      assert i - 1 == 4 * n + j;
    }
    forall n: nat, j: nat | j < 2 && WakeChild(n, j) == i ensures n == WakeParent(i) && j == WakeIndex(i) {
      assert i - 1 == 2 * n + j;
    }
  }

  ghost predicate WellFormed(p: nat, s: State)
  {
    && |s.episode| == |s.pc| == |s.sense| == |s.parentsense| == p
    && (forall c: Slot :: c in s.childnotready <==> c.thread < p && c.j < 4)
    && (forall i :: 0 <= i < p ==>
         && ((s.pc[i].Check? || s.pc[i].Reset?) ==> s.pc[i].j < 4)
         && (s.pc[i].Wake? ==> s.pc[i].j < 2)
         && ((s.pc[i].Signal? || s.pc[i].Await?) ==> i > 0))
  }

  ghost predicate Init(p: nat, s: State)
  {
    && WellFormed(p, s)
    && (forall i :: 0 <= i < p ==>
         s.episode[i] == 0 && s.pc[i] == Outside && s.sense[i] && !s.parentsense[i])
    && (forall c :: c in s.childnotready ==> s.childnotready[c] == (Child(c.thread, c.j) < p))
  }

  /** The pointers of a treenode that _reinit sets, None for a null pointer. */
  datatype Links = Links(parent: Option<Slot>, child0: Option<nat>, child1: Option<nat>)

  /** What _reinit gives thread i: its slots, and its links. */
  ghost predicate SlotsOf(p: nat, i: nat, row: seq<bool>)
  {
    |row| == 4 && forall j: nat :: j < 4 ==> row[j] == (Child(i, j) < p)
  }

  ghost predicate LinksOf(p: nat, i: nat, l: Links)
  {
    && l.parent == (if i > 0 then Some(ParentSlot(i)) else None)
    && l.child0 == (if WakeChild(i, 0) < p then Some(WakeChild(i, 0)) else None)
    && l.child1 == (if WakeChild(i, 1) < p then Some(WakeChild(i, 1)) else None)
  }

  /** _reinit, with the loops of the source. */
  method Reinit(p: nat) returns (s: State, links: seq<Links>)
    ensures Init(p, s)
    ensures |links| == p && forall i: nat :: i < p ==> LinksOf(p, i, links[i])
  {
    var rows: seq<seq<bool>> := [];
    links := [];
    for i := 0 to p
      invariant |links| == |rows| == i
      invariant forall k: nat :: k < i ==> SlotsOf(p, k, rows[k]) && LinksOf(p, k, links[k])
    {
      var row: seq<bool> := [];
      for j := 0 to 4
        invariant |row| == j && forall l: nat :: l < j ==> row[l] == (Child(i, l) < p)
      {
        row := row + [4 * i + j + 1 < p];
      }
      rows := rows + [row];
      links := links + [Links(
        if i == 0 then None else Some(Slot((i - 1) / 4, (i - 1) % 4)),
        if 2 * i + 1 >= p then None else Some(2 * i + 1),
        if 2 * i + 2 >= p then None else Some(2 * i + 2))];
    }
    assert forall i: nat :: i < p ==> SlotsOf(p, i, rows[i]);
    s := FromRows(p, rows);
  }

  /** The state a thread finds after _reinit. */
  function FromRows(p: nat, rows: seq<seq<bool>>): (s: State)
    requires |rows| == p && forall i: nat :: i < p ==> |rows[i]| == 4
    requires forall i: nat, j: nat :: i < p && j < 4 ==> rows[i][j] == (Child(i, j) < p)
    ensures Init(p, s)
  {
    var notready := map i: nat, j: nat | i < p && j < 4 :: Slot(i, j) := rows[i][j];
    assert forall c: Slot :: c in notready <==> c.thread < p && c.j < 4 by {
      forall c: Slot | c.thread < p && c.j < 4 ensures c in notready {
        assert c == Slot(c.thread, c.j);
      }
    }
    State(seq(p, _ => 0), seq(p, _ => Outside), seq(p, _ => true), notready, seq(p, _ => false))
  }

  /** wait, one access at a time. A slot still set restarts the spin condition. */
  ghost function Step(p: nat, s: State, i: nat): (s': State)
    requires WellFormed(p, s) && i < p
    ensures WellFormed(p, s')
  {
    match s.pc[i]
    case Outside => s.(pc := s.pc[i := Check(0)])
    case Check(j) =>
      s.(pc := s.pc[i := if s.childnotready[Slot(i, j)] then Check(0)
                         else if j < 3 then Check(j + 1) else Reset(0)])
    case Reset(j) =>
      s.(childnotready := s.childnotready[Slot(i, j) := Child(i, j) < p],
         pc := s.pc[i := if j < 3 then Reset(j + 1) else if i == 0 then Wake(0) else Signal])
    case Signal =>
      s.(childnotready := s.childnotready[ParentSlot(i) := false], pc := s.pc[i := Await])
    case Await =>
      if s.parentsense[i] != s.sense[i] then s else s.(pc := s.pc[i := Wake(0)])
    case Wake(j) =>
      s.(parentsense := if WakeChild(i, j) < p then s.parentsense[WakeChild(i, j) := s.sense[i]]
                        else s.parentsense,
         pc := s.pc[i := if j == 0 then Wake(1) else Flip])
    case Flip =>
      s.(sense := s.sense[i := !s.sense[i]],
         episode := s.episode[i := s.episode[i] + 1],
         pc := s.pc[i := Outside])
  }

  ghost function Exec(p: nat, s0: State, schedule: seq<nat>): (s: State)
    requires WellFormed(p, s0)
    ensures WellFormed(p, s)
  {
    if schedule == [] then s0 else
    var s := Exec(p, s0, schedule[..|schedule| - 1]);
    var i := schedule[|schedule| - 1];
    if i < p then Step(p, s, i) else s
  }

  // ----- what has happened, read off episode and pc

  ghost predicate Entered(s: State, i: nat, e: nat)
    requires i < |s.episode| == |s.pc|
  {
    s.episode[i] > e || (s.episode[i] == e && s.pc[i] != Outside)
  }

  /** The program order of wait. */
  ghost function Rank(pc: PC): (n: nat)
  {
    match pc
    case Outside => 0
    case Check(j) => 1 + j
    case Reset(j) => 5 + j
    case Signal => 9
    case Await => 10
    case Wake(j) => 11 + j
    case Flip => 13
  }

  /** In how many episodes thread i has gone past the program point of that rank (never zero). */
  ghost function Times(s: State, i: nat, rank: nat): (n: nat)
    requires i < |s.episode| == |s.pc|
  {
    s.episode[i] + if Rank(s.pc[i]) > rank then 1 else 0
  }

  ghost function Signals(s: State, c: nat): (n: nat)
    requires c < |s.episode| == |s.pc|
  {
    Times(s, c, 9)
  }

  ghost function Resets(s: State, n: nat, j: nat): (k: nat)
    requires n < |s.episode| == |s.pc|
  {
    Times(s, n, 5 + j)
  }

  ghost function Wakes(s: State, c: nat): (k: nat)
    requires 0 < c < |s.episode| == |s.pc|
  {
    Times(s, WakeParent(c), 11 + WakeIndex(c))
  }

  // ----- the invariant

  ghost predicate SlotInv(p: nat, s: State, n: nat, j: nat)
    requires WellFormed(p, s) && n < p && j < 4
  {
    if Child(n, j) < p then
      var c := Child(n, j);
      && Resets(s, n, j) <= Signals(s, c) <= Resets(s, n, j) + 1
      && s.childnotready[Slot(n, j)] == (Signals(s, c) == Resets(s, n, j))
      && Times(s, n, 1 + j) <= Signals(s, c)
    else
      !s.childnotready[Slot(n, j)]
  }

  ghost predicate WakeInv(p: nat, s: State, c: nat)
    requires WellFormed(p, s) && 0 < c < p
  {
    && s.parentsense[c] == (Wakes(s, c) % 2 == 1)
    && Times(s, c, 10) <= Wakes(s, c)
  }

  ghost predicate Inv(p: nat, s: State)
  {
    && WellFormed(p, s)
    && (forall i :: 0 <= i < p ==> s.sense[i] == (s.episode[i] % 2 == 0))
    && (forall n: nat, j: nat :: n < p && j < 4 ==> SlotInv(p, s, n, j))
    && (forall c: nat :: 0 < c < p ==> WakeInv(p, s, c))
  }

  /** Nobody gets past Await before every thread has restored its slots and signalled: arrivals
      are known up the 4-ary tree, wake-ups come down the binary one. */
  lemma {:induction false} WokenAfterRoot(p: nat, s: State, c: nat)
    requires Inv(p, s) && c < p
    ensures Times(s, c, 10) <= Times(s, 0, 8)
    decreases c
  {
    if c > 0 {
      WokenAfterRoot(p, s, WakeParent(c));
      assert WakeInv(p, s, c);
    }
  }

  lemma {:induction false} RootAfterArrivals(p: nat, s: State, i: nat)
    requires Inv(p, s) && i < p
    ensures Times(s, 0, 8) <= Times(s, i, 8)
    decreases i
  {
    if i > 0 {
      var sl := ParentSlot(i);
      RootAfterArrivals(p, s, sl.thread);
      assert SlotInv(p, s, sl.thread, sl.j);
    }
  }

  lemma {:induction false} WokenAfterArrivals(p: nat, s: State, c: nat, i: nat)
    requires Inv(p, s) && c < p && i < p
    ensures Times(s, c, 10) <= Times(s, i, 8)
  {
    WokenAfterRoot(p, s, c);
    RootAfterArrivals(p, s, i);
  }

  // ----- the invariant holds in every run

  lemma {:induction false} InitInv(p: nat, s: State)
    requires Init(p, s)
    ensures Inv(p, s)
  {
  }

  /** The slot is restored before its child's next arrival, because that child has left the
      previous episode only after everybody arrived in it. */
  lemma {:induction false} SignalFindsSlotSet(p: nat, s: State, c: nat)
    requires Inv(p, s) && c < p && s.pc[c] == Signal
    ensures var sl := ParentSlot(c);
            Signals(s, c) == Resets(s, sl.thread, sl.j) && s.childnotready[sl]
  {
    var sl := ParentSlot(c);
    assert SlotInv(p, s, sl.thread, sl.j);
    WokenAfterArrivals(p, s, c, sl.thread);
  }

  lemma {:induction false} StepCounts(p: nat, s: State, i: nat, n: nat, j: nat)
    requires WellFormed(p, s) && i < p && n < p && j < 4 && Child(n, j) < p
    ensures var c, s' := Child(n, j), Step(p, s, i);
            && Signals(s', c) == Signals(s, c) + (if i == c && s.pc[i] == Signal then 1 else 0)
            && Resets(s', n, j) == Resets(s, n, j) + (if i == n && s.pc[i] == Reset(j) then 1 else 0)
            && (Times(s', n, 1 + j) <= Times(s, n, 1 + j)
                || (i == n && s.pc[i] == Check(j) && !s.childnotready[Slot(n, j)]))
  {
  }

  lemma {:induction false} StepKeepsSlot(p: nat, s: State, i: nat, n: nat, j: nat)
    requires Inv(p, s) && i < p && n < p && j < 4
    ensures SlotInv(p, Step(p, s, i), n, j)
  {
    assert SlotInv(p, s, n, j);
    var c := Child(n, j);
    if s.pc[i] == Signal {
      SignalFindsSlotSet(p, s, i);
      assert Slot(n, j) == ParentSlot(i) <==> c == i by { SlotsOwnedOnce(i); }
    }
    if c < p { StepCounts(p, s, i, n, j); }
  }

  /** The word of a thread changes only when its wake-up parent writes it. */
  lemma {:induction false} WakeStep(p: nat, s: State, i: nat, c: nat)
    requires WellFormed(p, s) && i < p && 0 < c < p
    ensures Step(p, s, i).parentsense[c] ==
            if s.pc[i].Wake? && WakeChild(i, s.pc[i].j) == c then s.sense[i] else s.parentsense[c]
  {
  }

  lemma {:induction false} WakesOnly(i: nat, j: nat, c: nat)
    requires j < 2 && c > 0
    ensures WakeChild(i, j) == c <==> i == WakeParent(c) && j == WakeIndex(c)
  {
  }

  /** What an uneventful step, or the write of a wake-up parent, does to the count of a thread. */
  lemma {:induction false} TimesOf(p: nat, s: State, i: nat, k: nat, j: nat)
    requires WellFormed(p, s) && i < p && k < p && j < 2
    ensures Times(Step(p, s, i), k, 11 + j) == Times(s, k, 11 + j) + if i == k && s.pc[k] == Wake(j) then 1 else 0
  {
  }

  lemma {:induction false} WakeCounts(p: nat, s: State, i: nat, c: nat)
    requires WellFormed(p, s) && i < p && 0 < c < p
    ensures Wakes(Step(p, s, i), c) == Wakes(s, c) +
            if s.pc[i].Wake? && WakeChild(i, s.pc[i].j) == c then 1 else 0
  {
    TimesOf(p, s, i, WakeParent(c), WakeIndex(c));
    if s.pc[i].Wake? { WakesOnly(i, s.pc[i].j, c); }
  }

  /** A thread leaves Await only on reading its own sense. */
  lemma {:induction false} AwaitCounts(p: nat, s: State, i: nat, c: nat)
    requires WellFormed(p, s) && i < p && 0 < c < p
    ensures Times(Step(p, s, i), c, 10) == Times(s, c, 10) +
            if i == c && s.pc[c] == Await && s.parentsense[c] == s.sense[c] then 1 else 0
  {
  }

  lemma {:induction false} StepKeepsWake(p: nat, s: State, i: nat, c: nat)
    requires WellFormed(p, s) && i < p && 0 < c < p && WakeInv(p, s, c)
    requires forall k :: 0 <= k < p ==> s.sense[k] == (s.episode[k] % 2 == 0)
    ensures WakeInv(p, Step(p, s, i), c)
  {
    WakeStep(p, s, i, c);
    WakeCounts(p, s, i, c);
    AwaitCounts(p, s, i, c);
    if s.pc[i].Wake? && WakeChild(i, s.pc[i].j) == c { SlotsOwnedOnce(c); }
  }

  lemma {:induction false} StepKeepsInv(p: nat, s: State, i: nat)
    requires Inv(p, s) && i < p
    ensures Inv(p, Step(p, s, i))
  {
    forall n: nat, j: nat | n < p && j < 4 ensures SlotInv(p, Step(p, s, i), n, j) {
      StepKeepsSlot(p, s, i, n, j);
    }
    forall c: nat | 0 < c < p ensures WakeInv(p, Step(p, s, i), c) {
      StepKeepsWake(p, s, i, c);
    }
  }

  lemma {:induction false} InvHolds(p: nat, s0: State, schedule: seq<nat>)
    requires Init(p, s0)
    ensures Inv(p, Exec(p, s0, schedule))
  {
    if schedule == [] {
      InitInv(p, s0);
    } else {
      InvHolds(p, s0, schedule[..|schedule| - 1]);
      var i := schedule[|schedule| - 1];
      if i < p { StepKeepsInv(p, Exec(p, s0, schedule[..|schedule| - 1]), i); }
    }
  }

  // ----- the properties

  /** Barrier safety: in every state of every run, a thread that has returned from its e-th wait
      has been preceded into that wait by every other thread. */
  lemma {:induction false} BarrierSafety(p: nat, s0: State, schedule: seq<nat>, j: nat, e: nat)
    requires Init(p, s0) && j < p
    requires Exec(p, s0, schedule).episode[j] > e
    ensures forall i: nat :: i < p ==> Entered(Exec(p, s0, schedule), i, e)
  {
    InvHolds(p, s0, schedule);
    var s := Exec(p, s0, schedule);
    forall i: nat | i < p ensures Entered(s, i, e) {
      WokenAfterArrivals(p, s, j, i);
    }
  }

  /** Whenever a thread is about to signal its parent, the slot is set: the parent's reset has
      always preceded the arrival, so no arrival is lost. */
  lemma {:induction false} ResetPrecedesArrival(p: nat, s0: State, schedule: seq<nat>, c: nat)
    requires Init(p, s0) && c < p
    requires Exec(p, s0, schedule).pc[c] == Signal
    ensures Exec(p, s0, schedule).childnotready[ParentSlot(c)]
  {
    InvHolds(p, s0, schedule);
    SignalFindsSlotSet(p, Exec(p, s0, schedule), c);
  }

  /** A waiting thread reads its own sense exactly when its wake-up parent has written in this
      episode. */
  lemma {:induction false} AwaitReadsCurrentWake(p: nat, s: State, c: nat)
    requires Inv(p, s) && c < p && s.pc[c] == Await
    ensures s.parentsense[c] == s.sense[c] <==> Wakes(s, c) == s.episode[c] + 1
  {
    assert WakeInv(p, s, c);
    WokenAfterArrivals(p, s, WakeParent(c), c);
  }

  // ----- progress

  /** A thread that still spins, on its slots or on its wake-up word. */
  ghost predicate Blocked(p: nat, s: State, i: nat)
    requires WellFormed(p, s) && i < p
  {
    || (s.pc[i].Check? && exists j: nat :: j < 4 && s.childnotready[Slot(i, j)])
    || (s.pc[i] == Await && s.parentsense[i] != s.sense[i])
  }

  /** The last thread of the slowest episode that has not signalled finds all its slots clear. */
  lemma {:induction false} LastArriverFree(p: nat, s: State, i: nat)
    requires Inv(p, s) && i < p && Rank(s.pc[i]) <= 9
    requires forall k: nat :: k < p ==> s.episode[k] >= s.episode[i]
    requires forall k: nat :: i < k < p && s.episode[k] == s.episode[i] ==> Rank(s.pc[k]) > 9
    ensures !Blocked(p, s, i)
  {
    forall j: nat | j < 4 && s.pc[i].Check? ensures !s.childnotready[Slot(i, j)] {
      assert SlotInv(p, s, i, j);
    }
  }

  /** Once all have signalled, the first thread of the slowest episode has been woken. */
  lemma {:induction false} FirstSleeperFree(p: nat, s: State, i: nat)
    requires Inv(p, s) && i < p && Rank(s.pc[i]) > 9
    requires forall k: nat :: k < p ==> s.episode[k] >= s.episode[i]
    requires forall k: nat :: k < i ==> s.episode[k] > s.episode[i]
    ensures !Blocked(p, s, i)
  {
    if s.pc[i] == Await {
      assert WakeInv(p, s, i);
      AwaitReadsCurrentWake(p, s, i);
      WokenAfterArrivals(p, s, WakeParent(i), i);
    }
  }

  /** The first thread of the slowest episode. */
  lemma {:induction false} Slowest(episode: seq<nat>) returns (low: nat)
    requires episode != []
    ensures low < |episode| && forall k: nat :: k < |episode| ==> episode[k] >= episode[low]
    ensures forall k: nat :: k < low ==> episode[k] > episode[low]
  {
    low := 0;
    for k: nat := 1 to |episode|
      invariant low < |episode| && (forall m: nat :: m < k ==> episode[m] >= episode[low])
      invariant forall m: nat :: m < low ==> episode[m] > episode[low]
    {
      if episode[k] < episode[low] { low := k; }
    }
  }

  /** The last thread of an episode that has not signalled, if there is one. */
  lemma {:induction false} LastArriver(episode: seq<nat>, pc: seq<PC>, e: nat) returns (last: Option<nat>)
    requires |pc| == |episode|
    ensures last.Some? ==> last.value < |pc| && episode[last.value] == e && Rank(pc[last.value]) <= 9
    ensures forall k: nat :: (last.Some? ==> last.value < k) && k < |pc| && episode[k] == e ==> Rank(pc[k]) > 9
  {
    last := None;
    for k: nat := 0 to |pc|
      invariant last.Some? ==> last.value < k && episode[last.value] == e && Rank(pc[last.value]) <= 9
      invariant forall m: nat :: (last.Some? ==> last.value < m) && m < k && episode[m] == e ==> Rank(pc[m]) > 9
    {
      if episode[k] == e && Rank(pc[k]) <= 9 { last := Some(k); }
    }
  }

  /** No deadlock: in no state of any run are all threads blocked. */
  lemma {:induction false} NoDeadlock(p: nat, s0: State, schedule: seq<nat>)
    requires Init(p, s0) && p > 0
    ensures exists i: nat :: i < p && !Blocked(p, Exec(p, s0, schedule), i)
  {
    InvHolds(p, s0, schedule);
    var s := Exec(p, s0, schedule);
    var low := Slowest(s.episode);
    var last := LastArriver(s.episode, s.pc, s.episode[low]);
    if last.Some? { LastArriverFree(p, s, last.value); } else { FirstSleeperFree(p, s, low); }
  }
}
