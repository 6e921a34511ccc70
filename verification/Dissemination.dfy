/** The dissemination barrier: every thread signals, in round r, the thread 2^r places ahead of
    it on a ring and waits for the thread 2^r places behind. The flags are never cleared; two
    parities and an alternating sense value let them be used again in later episodes.

    One call of Step is one atomic access (or one thread-local update) of one thread, and a run
    is an arbitrary schedule of thread numbers. */
module Dissemination {
  import opened Arith

  /** FAST_LOG2_UP: the number of rounds. */
  function FastLog2Up(x: nat): (r: nat)
    requires x >= 1
    ensures x <= Pow2(r)
    ensures r > 0 ==> Pow2(r - 1) < x
  {
    if x - Pow2(Log2(x)) != 0 then Log2(x) + 1 else Log2(x)
  }

  datatype Cell = Cell(thread: nat, round: nat, parity: nat)

  /** Where a thread is: outside wait, about to store in round r, spinning in round r, or about to
      flip its parity (and sense) and return. */
  datatype PC = Outside | Store(r: nat) | Spin(r: nat) | Flip

  /** parity, sense and flag are the fields of the source; episode counts the returns from wait
      of each thread and is only read by the statements of properties. */
  datatype State = State(
    episode: seq<nat>,
    pc: seq<PC>,
    parity: seq<nat>,
    sense: seq<nat>,
    flag: map<Cell, nat>)

  /** (i + 2^r) mod p, for the rounds there are. */
  function Partner(p: nat, i: nat, r: nat): (j: nat)
    requires i < p && r < FastLog2Up(p)
    ensures j < p
  {
    JumpBelowSize(p, r);
    var j := i + Pow2(r);
    if j < p then j else j - p
  }

  /** The thread m places behind j on the ring. */
  function Behind(p: nat, j: nat, m: nat): (i: nat)
    requires j < p && m < p
    ensures i < p
  {
    if m <= j then j - m else j - m + p
  }

  function Signaller(p: nat, j: nat, r: nat): (i: nat)
    requires j < p && r < FastLog2Up(p)
    ensures i < p
    ensures Partner(p, i, r) == j
  {
    JumpBelowSize(p, r);
    Behind(p, j, Pow2(r))
  }

  lemma {:induction false} JumpBelowSize(p: nat, r: nat)
    requires p >= 1 && r < FastLog2Up(p)
    ensures Pow2(r) < p
  {
    Pow2Monotone(r, FastLog2Up(p) - 1);
  }

  /** _reinit: the flags and the partner table are filled by the loops of the source. */
  method Reinit(p: nat) returns (logP: nat, partner: array2<nat>, s: State)
    requires p >= 1
    ensures logP == FastLog2Up(p)
    ensures partner.Length0 == p && partner.Length1 == logP
    ensures forall i, j :: 0 <= i < p && 0 <= j < logP ==> partner[i, j] == Partner(p, i, j)
    ensures Init(p, s)
  {
    logP := FastLog2Up(p);
    partner := new nat[p, logP];
    var parity: seq<nat>, sense: seq<nat>, flag: map<Cell, nat> := [], [], map[];
    for i := 0 to p
      invariant |parity| == |sense| == i
      invariant forall k :: 0 <= k < i ==> parity[k] == 0 && sense[k] == 1
      invariant forall c: Cell :: c in flag <==> c.thread < i && c.round < logP && c.parity < 2
      invariant forall c :: c in flag ==> flag[c] == 0
      invariant forall k, j :: 0 <= k < i && 0 <= j < logP ==> partner[k, j] == Partner(p, k, j)
    {
      parity, sense := parity + [0], sense + [1];
      for j := 0 to logP
        invariant forall c: Cell :: c in flag <==>
          c.parity < 2 && ((c.thread < i && c.round < logP) || (c.thread == i && c.round < j))
        invariant forall c :: c in flag ==> flag[c] == 0
      {
        flag := flag[Cell(i, j, 0) := 0][Cell(i, j, 1) := 0];
      }
      var d := 1;
      for j := 0 to logP
        invariant d == Pow2(j)
        invariant forall k, l :: 0 <= k < i && 0 <= l < logP ==> partner[k, l] == Partner(p, k, l)
        invariant forall l :: 0 <= l < j ==> partner[i, l] == Partner(p, i, l)
      {
        partner[i, j] := (i + d) % p;
        JumpBelowSize(p, j);
        ModUnique(i + d, p, if i + d < p then 0 else 1, Partner(p, i, j));
        d := d * 2;
      }
    }
    s := State(seq(p, _ => 0), seq(p, _ => Outside), parity, sense, flag);
  }

  ghost predicate WellFormed(p: nat, s: State)
  {
    && p >= 1
    && |s.episode| == |s.pc| == |s.parity| == |s.sense| == p
    && (forall c: Cell :: c in s.flag <==> c.thread < p && c.round < FastLog2Up(p) && c.parity < 2)
    && (forall i :: 0 <= i < p ==> s.parity[i] < 2 && s.sense[i] < 2)
    && (forall i :: 0 <= i < p ==>
         (s.pc[i].Store? || s.pc[i].Spin? ==> s.pc[i].r < FastLog2Up(p)))
  }

  ghost predicate Init(p: nat, s: State)
  {
    && WellFormed(p, s)
    && (forall i :: 0 <= i < p ==>
         s.episode[i] == 0 && s.pc[i] == Outside && s.parity[i] == 0 && s.sense[i] == 1)
    && (forall c :: c in s.flag ==> s.flag[c] == 0)
  }

  /** wait, one access at a time; a failed spin leaves the state as it is. */
  ghost function Step(p: nat, s: State, i: nat): (s': State)
    requires WellFormed(p, s) && i < p
    ensures WellFormed(p, s')
  {
    match s.pc[i]
    case Outside => s.(pc := s.pc[i := if FastLog2Up(p) > 0 then Store(0) else Flip])
    case Store(r) =>
      s.(flag := s.flag[Cell(Partner(p, i, r), r, s.parity[i]) := s.sense[i]],
         pc := s.pc[i := Spin(r)])
    case Spin(r) =>
      if s.flag[Cell(i, r, s.parity[i])] != s.sense[i] then s
      else s.(pc := s.pc[i := if r + 1 < FastLog2Up(p) then Store(r + 1) else Flip])
    case Flip =>
      s.(sense := s.sense[i := if s.parity[i] == 1 then 1 - s.sense[i] else s.sense[i]],
         parity := s.parity[i := 1 - s.parity[i]],
         episode := s.episode[i := s.episode[i] + 1],
         pc := s.pc[i := Outside])
  }

  /** The state after a schedule; a step of a thread number out of range is skipped. */
  ghost function Exec(p: nat, s0: State, schedule: seq<nat>): (s: State)
    requires WellFormed(p, s0)
    ensures WellFormed(p, s)
  {
    if schedule == [] then s0 else
    var s := Exec(p, s0, schedule[..|schedule| - 1]);
    var i := schedule[|schedule| - 1];
    if i < p then Step(p, s, i) else s
  }

  // ----- what has happened, read off episode and pc

  ghost predicate Entered(s: State, i: nat, e: nat)
    requires i < |s.episode| == |s.pc|
  {
    s.episode[i] > e || (s.episode[i] == e && s.pc[i] != Outside)
  }

  ghost predicate AfterStore(pc: PC, r: nat)
  {
    pc == Flip || (pc.Store? && pc.r > r) || (pc.Spin? && pc.r >= r)
  }

  ghost predicate AfterSpin(pc: PC, r: nat)
  {
    pc == Flip || ((pc.Store? || pc.Spin?) && pc.r > r)
  }

  /** Thread i has signalled its partner of round r in episode e. */
  ghost predicate Signalled(s: State, i: nat, r: nat, e: nat)
    requires i < |s.episode| == |s.pc|
  {
    s.episode[i] > e || (s.episode[i] == e && AfterStore(s.pc[i], r))
  }

  /** Thread j has seen the signal of round r in episode e. */
  ghost predicate Passed(s: State, j: nat, r: nat, e: nat)
    requires j < |s.episode| == |s.pc|
  {
    s.episode[j] > e || (s.episode[j] == e && AfterSpin(s.pc[j], r))
  }

  /** How often a thread has stored into its round-r flag of one parity. */
  ghost function Stores(s: State, i: nat, r: nat, parity: nat): (n: nat)
    requires i < |s.episode| == |s.pc| && parity < 2
  {
    (s.episode[i] + 1 - parity) / 2 +
    (if s.episode[i] % 2 == parity && AfterStore(s.pc[i], r) then 1 else 0)
  }

  // ----- the invariant

  ghost predicate LocalInv(p: nat, s: State)
    requires WellFormed(p, s)
  {
    forall i :: 0 <= i < p ==>
      s.parity[i] == s.episode[i] % 2 && s.sense[i] == 1 - (s.episode[i] / 2) % 2
  }

  ghost predicate FlagInv(p: nat, s: State)
    requires WellFormed(p, s)
  {
    forall c :: c in s.flag ==>
      s.flag[c] == Stores(s, Signaller(p, c.thread, c.round), c.round, c.parity) % 2
  }

  ghost predicate SyncInv(p: nat, s: State)
    requires WellFormed(p, s)
  {
    forall j: nat, r: nat, e: nat :: j < p && r < FastLog2Up(p) && Passed(s, j, r, e)
      ==> Signalled(s, Signaller(p, j, r), r, e)
  }

  ghost predicate Inv(p: nat, s: State)
  {
    WellFormed(p, s) && LocalInv(p, s) && FlagInv(p, s) && SyncInv(p, s)
  }

  // ----- the invariant holds in every run

  lemma {:induction false} InitInv(p: nat, s: State)
    requires Init(p, s)
    ensures Inv(p, s)
  {
    forall c | c in s.flag
      ensures s.flag[c] == Stores(s, Signaller(p, c.thread, c.round), c.round, c.parity) % 2
    {
      assert Stores(s, Signaller(p, c.thread, c.round), c.round, c.parity) == 0;
    }
  }

  /** The only step that changes a store count is the store itself. */
  lemma {:induction false} StepStores(p: nat, s: State, i: nat, w: nat, r: nat, parity: nat)
    requires WellFormed(p, s) && LocalInv(p, s)
    requires i < p && w < p && parity < 2 && r < FastLog2Up(p)
    ensures Stores(Step(p, s, i), w, r, parity) == Stores(s, w, r, parity) +
            (if w == i && s.pc[i] == Store(r) && s.parity[i] == parity then 1 else 0)
  {
  }

  lemma {:induction false} SignallerOfPartner(p: nat, i: nat, r: nat)
    requires i < p && r < FastLog2Up(p)
    ensures Signaller(p, Partner(p, i, r), r) == i
  {
    JumpBelowSize(p, r);
  }

  /** The new sense of a storing thread has the parity of its new store count. */
  lemma {:induction false} SenseIsStoreParity(p: nat, s: State, i: nat, r: nat)
    requires WellFormed(p, s) && LocalInv(p, s) && i < p && s.pc[i] == Store(r)
    ensures s.sense[i] == (Stores(s, i, r, s.parity[i]) + 1) % 2
  {
    var e := s.episode[i];
    assert (e + 1 - e % 2) / 2 == e / 2;
  }

  /** Only a store changes a flag, and only that of the partner. */
  lemma {:induction false} StepFlag(p: nat, s: State, i: nat, c: Cell)
    requires WellFormed(p, s) && i < p && c in s.flag
    ensures Step(p, s, i).flag[c] ==
            if s.pc[i].Store? && c == Cell(Partner(p, i, s.pc[i].r), s.pc[i].r, s.parity[i]) then s.sense[i] else s.flag[c]
  {
  }

  lemma {:induction false} StepKeepsFlag(p: nat, s: State, i: nat, c: Cell)
    requires WellFormed(p, s) && LocalInv(p, s) && FlagInv(p, s) && i < p && c in s.flag
    ensures Step(p, s, i).flag[c] ==
            Stores(Step(p, s, i), Signaller(p, c.thread, c.round), c.round, c.parity) % 2
  {
    var w := Signaller(p, c.thread, c.round);
    StepStores(p, s, i, w, c.round, c.parity);
    assert s.flag[c] == Stores(s, w, c.round, c.parity) % 2;
    StepFlag(p, s, i, c);
    if s.pc[i].Store? {
      var r := s.pc[i].r;
      SignallerOfPartner(p, i, r);
      if c == Cell(Partner(p, i, r), r, s.parity[i]) { SenseIsStoreParity(p, s, i, r); }
    }
  }

  lemma {:induction false} StepKeepsFlags(p: nat, s: State, i: nat)
    requires Inv(p, s) && i < p
    ensures FlagInv(p, Step(p, s, i))
  {
    forall c | c in Step(p, s, i).flag
      ensures Step(p, s, i).flag[c] ==
              Stores(Step(p, s, i), Signaller(p, c.thread, c.round), c.round, c.parity) % 2
    {
      assert c in s.flag;
      StepKeepsFlag(p, s, i, c);
    }
  }

  /** Who a thread knows to have arrived: once past round r it is preceded by the 2^(r+1)
      threads that end at itself on the ring. */
  lemma {:induction false} KnownArrivals(p: nat, s: State, j: nat, r: nat, e: nat, m: nat)
    requires Inv(p, s) && j < p && r < FastLog2Up(p)
    requires Passed(s, j, r, e) && m < Pow2(r + 1) && m < p
    ensures Entered(s, Behind(p, j, m), e)
    decreases r
  {
    var w := Signaller(p, j, r);
    assert Signalled(s, w, r, e);
    if m < Pow2(r) {
      if r > 0 { KnownArrivals(p, s, j, r - 1, e, m); }
    } else {
      assert Behind(p, w, m - Pow2(r)) == Behind(p, j, m);
      if r > 0 {
        assert Passed(s, w, r - 1, e);
        KnownArrivals(p, s, w, r - 1, e, m - Pow2(r));
      }
    }
  }

  lemma {:induction false} LeavingMeansAllEntered(p: nat, s: State, j: nat, i: nat, e: nat)
    requires Inv(p, s) && i < p && j < p && s.episode[j] > e
    ensures Entered(s, i, e)
  {
    var logP := FastLog2Up(p);
    if logP == 0 {
      assert Pow2(0) == 1;
    } else {
      KnownArrivals(p, s, j, logP - 1, e, if i <= j then j - i else j - i + p);
    }
  }

  /** While thread j spins, its signaller has stored in every earlier episode of this parity and
      in no later one, so the count tells whether it has stored in the current episode. */
  lemma {:induction false} StoresSeen(p: nat, s: State, j: nat, r: nat)
    requires Inv(p, s) && j < p && s.pc[j] == Spin(r)
    ensures var i, e := Signaller(p, j, r), s.episode[j];
            Stores(s, i, r, e % 2) == e / 2 + (if Signalled(s, i, r, e) then 1 else 0)
  {
    var i, e := Signaller(p, j, r), s.episode[j];
    if e > 0 { assert Passed(s, j, r, e - 1); }
    assert s.episode[i] <= e + 1 by {
      if s.episode[i] > e + 1 { LeavingMeansAllEntered(p, s, i, j, e + 1); }
    }
    assert e > 0 ==> Signalled(s, i, r, e - 1);
  }

  /** The sense of episode e is the parity of a count that includes the store of episode e. */
  lemma {:induction false} SenseSeen(e: nat, signalled: bool)
    ensures (e / 2 + (if signalled then 1 else 0)) % 2 == 1 - (e / 2) % 2 <==> signalled
  {
  }

  lemma {:induction false} FlagCounts(p: nat, s: State, j: nat, r: nat)
    requires WellFormed(p, s) && LocalInv(p, s) && FlagInv(p, s) && j < p && s.pc[j] == Spin(r)
    ensures var c := Cell(j, r, s.parity[j]);
            c in s.flag && s.flag[c] == Stores(s, Signaller(p, j, r), r, s.episode[j] % 2) % 2
    ensures s.sense[j] == 1 - (s.episode[j] / 2) % 2
  {
  }

  /** A spinning thread reads its own sense exactly when its signaller has signalled in this
      very episode. */
  lemma {:induction false} SpinReadsCurrentSignal(p: nat, s: State, j: nat, r: nat)
    requires Inv(p, s) && j < p && s.pc[j] == Spin(r)
    ensures s.flag[Cell(j, r, s.parity[j])] == s.sense[j] <==>
            Signalled(s, Signaller(p, j, r), r, s.episode[j])
  {
    StoresSeen(p, s, j, r);
    FlagCounts(p, s, j, r);
    SenseSeen(s.episode[j], Signalled(s, Signaller(p, j, r), r, s.episode[j]));
  }

  lemma {:induction false} StepKeepsSync(p: nat, s: State, i: nat)
    requires Inv(p, s) && i < p
    ensures SyncInv(p, Step(p, s, i))
  {
    var s' := Step(p, s, i);
    if s.pc[i].Spin? { SpinReadsCurrentSignal(p, s, i, s.pc[i].r); }
    forall j: nat, r: nat, e: nat | j < p && r < FastLog2Up(p) && Passed(s', j, r, e)
      ensures Signalled(s', Signaller(p, j, r), r, e)
    {
      assert Passed(s, j, r, e) || (j == i && s.pc[i] == Spin(r) && e == s.episode[i]);
      assert Signalled(s, Signaller(p, j, r), r, e);
    }
  }

  lemma {:induction false} StepKeepsLocal(p: nat, s: State, i: nat)
    requires WellFormed(p, s) && LocalInv(p, s) && i < p
    ensures LocalInv(p, Step(p, s, i))
  {
  }

  lemma {:induction false} StepKeepsInv(p: nat, s: State, i: nat)
    requires Inv(p, s) && i < p
    ensures Inv(p, Step(p, s, i))
  {
    StepKeepsLocal(p, s, i);
    StepKeepsFlags(p, s, i);
    StepKeepsSync(p, s, i);
  }

  lemma {:induction false} InvHolds(p: nat, s0: State, schedule: seq<nat>)
    requires Init(p, s0)
    ensures Inv(p, Exec(p, s0, schedule))
  {
    if schedule == [] {
      InitInv(p, s0);
    } else {
      InvHolds(p, s0, schedule[..|schedule| - 1]);
      var i := schedule[|schedule| - 1];
      if i < p { StepKeepsInv(p, Exec(p, s0, schedule[..|schedule| - 1]), i); }
    }
  }

  // ----- the properties

  /** Barrier safety: in every state of every run, a thread that has returned from its e-th wait
      has been preceded into that wait by every other thread. */
  lemma {:induction false} BarrierSafety(p: nat, s0: State, schedule: seq<nat>, j: nat, e: nat)
    requires Init(p, s0) && j < p
    requires Exec(p, s0, schedule).episode[j] > e
    ensures forall i: nat :: i < p ==> Entered(Exec(p, s0, schedule), i, e)
  {
    InvHolds(p, s0, schedule);
    forall i: nat | i < p ensures Entered(Exec(p, s0, schedule), i, e) {
      LeavingMeansAllEntered(p, Exec(p, s0, schedule), j, i, e);
    }
  }

  /** Reuse of the flags is exact: what a spinning thread reads equals its sense if and only if
      its signaller has stored in this episode, so neither a stale nor an early store is ever
      taken for, or hides, the current one. */
  lemma {:induction false} FlagReuseExact(p: nat, s0: State, schedule: seq<nat>, j: nat, r: nat)
    requires Init(p, s0) && j < p
    requires Exec(p, s0, schedule).pc[j] == Spin(r)
    ensures var s := Exec(p, s0, schedule);
            s.flag[Cell(j, r, s.parity[j])] == s.sense[j] <==>
            Signalled(s, Signaller(p, j, r), r, s.episode[j])
  {
    InvHolds(p, s0, schedule);
    SpinReadsCurrentSignal(p, Exec(p, s0, schedule), j, r);
  }

  // ----- progress

  /** Flip comes first here: a thread about to flip can always move. */
  ghost function PcRank(pc: PC): (n: nat)
  {
    match pc case Outside => 0 case Store(r) => 1 + 2 * r case Spin(r) => 2 + 2 * r case Flip => 0
  }

  ghost predicate AtOrBefore(s: State, i: nat, j: nat)
    requires i < |s.episode| == |s.pc| && j < |s.episode|
  {
    s.episode[i] < s.episode[j] || (s.episode[i] == s.episode[j] && PcRank(s.pc[i]) <= PcRank(s.pc[j]))
  }

  lemma {:induction false} Hindmost(p: nat, s: State, n: nat) returns (i: nat)
    requires WellFormed(p, s) && 1 <= n <= p
    ensures i < n && forall j: nat :: j < n ==> AtOrBefore(s, i, j)
  {
    i := 0;
    for k: nat := 1 to n
      invariant i < n && forall j: nat :: j < k ==> AtOrBefore(s, i, j)
    {
      if !AtOrBefore(s, i, k) {
        forall j: nat | j < k ensures AtOrBefore(s, k, j) { assert AtOrBefore(s, i, j); }
        i := k;
      }
    }
  }

  lemma {:induction false} HindmostCanMove(p: nat, s: State, i: nat)
    requires Inv(p, s) && i < p && s.pc[i] != Outside
    requires forall j: nat :: j < p ==> AtOrBefore(s, i, j)
    ensures Step(p, s, i).pc[i] != s.pc[i]
  {
    if s.pc[i].Spin? {
      var w := Signaller(p, i, s.pc[i].r);
      SpinReadsCurrentSignal(p, s, i, s.pc[i].r);
      assert AtOrBefore(s, i, w);
    }
  }

  /** No deadlock: when every thread is inside wait, some thread can move. */
  lemma {:induction false} NoDeadlock(p: nat, s0: State, schedule: seq<nat>)
    requires Init(p, s0)
    requires forall i :: 0 <= i < p ==> Exec(p, s0, schedule).pc[i] != Outside
    ensures exists i: nat :: i < p &&
              Step(p, Exec(p, s0, schedule), i).pc[i] != Exec(p, s0, schedule).pc[i]
  {
    InvHolds(p, s0, schedule);
    var i := Hindmost(p, Exec(p, s0, schedule), p);
    HindmostCanMove(p, Exec(p, s0, schedule), i);
  }
}
