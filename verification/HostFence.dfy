/** HostFence::wait over first-in first-out pipes: what the fence promises when each pair of
    hosts is connected by a queue of which only the head can be received, and only by its tag.
    FenceStack shows that the buffered network is such a pipe. */
module HostFence {
  import opened Bytes
  import opened RecvBuffer
  import opened Wrappers

  /** evilPhase runs through 1 .. 32766 and starts again. */
  const PHASES: nat := 32766

  function Phase(fence: nat): (t: nat)
    ensures 1 <= t <= PHASES
  {
    1 + fence % PHASES
  }

  /** ++evilPhase with its wrap-around. */
  function NextPhase(t: nat): (t': nat)
  {
    if t + 1 >= 32767 then 1 else t + 1
  }

  /** The phase advances with the number of fences passed, across the wrap, and the phases of
      neighbouring fences differ. */
  lemma {:induction false} PhaseAdvances(fence: nat)
    ensures NextPhase(Phase(fence)) == Phase(fence + 1) != Phase(fence)
  {
  }

  datatype Pair = Pair(src: nat, dst: nat)

  /** Everything sent on a pair so far, and how much of it has been received. */
  datatype Pipe = Pipe(sent: seq<Fragment>, popped: nat)

  datatype PC = Outside | Sending(next: nat) | Receiving(received: nat)

  datatype Mark = Mark(src: nat, dst: nat, fence: nat)

  /** pc and phase are the state of HostFence::wait. inHand is the message of a pair that was popped
      by handleReceives and whose handler has not finished, if any: as long as there is one, the
      receiver holds recvLock for that source. The rest is history: fences passed, the hosts heard
      from in the current fence, the messages whose handlers have finished, per pair, and how many
      messages a pair had carried when its source entered a fence. */
  datatype State = State(
    pc: seq<PC>,
    phase: seq<nat>,
    fences: seq<nat>,
    heard: seq<set<nat>>,
    pipes: map<Pair, Pipe>,
    inHand: map<Pair, seq<Fragment>>,
    handled: map<Pair, seq<Fragment>>,
    marks: map<Mark, nat>)

  datatype Event =
    | SendMsg(h: nat, dst: nat, payload: seq<byte>)  // sendMsg, at any time
    | Enter(h: nat)                                  // wait is called
    | SendNext(h: nat)                               // one iteration of the send loop
    | Receive(h: nat, src: nat)                      // handleReceives locks a source and pops
    | Finish(h: nat, src: nat)                       // the handler of that message is done
    | Take(h: nat, src: nat)                         // recieveTagged(evilPhase) returns a message
    | Leave(h: nat)                                  // received == Num: ++evilPhase and return

  ghost predicate WellFormed(n: nat, s: State)
  {
    && |s.pc| == |s.phase| == |s.fences| == |s.heard| == n
    && (forall p: Pair :: p in s.pipes <==> p.src < n && p.dst < n)
    && s.inHand.Keys == s.handled.Keys == s.pipes.Keys
    && (forall p :: p in s.pipes ==> s.pipes[p].popped <= |s.pipes[p].sent|)
  }

  ghost predicate Init(n: nat, s: State)
  {
    && WellFormed(n, s)
    && (forall h :: 0 <= h < n ==>
         s.pc[h] == Outside && s.phase[h] == 1 && s.fences[h] == 0 && s.heard[h] == {})
    && (forall p :: p in s.pipes ==> s.pipes[p] == Pipe([], 0) && s.inHand[p] == s.handled[p] == [])
    && s.marks == map[]
  }

  /** The conditions of the control flow and of the receive locks, without those on what has
      arrived. */
  ghost predicate Control(n: nat, s: State, e: Event)
    requires WellFormed(n, s)
  {
    match e
    case SendMsg(h, dst, payload) => h < n && dst < n
    case Enter(h) => h < n && s.pc[h].Outside?
    case SendNext(h) => h < n && s.pc[h].Sending?
    case Receive(h, src) => h < n && src < n && s.inHand[Pair(src, h)] == []
    case Finish(h, src) => h < n && src < n && s.inHand[Pair(src, h)] != []
    case Take(h, src) =>
      && h < n && src < n && s.inHand[Pair(src, h)] == []
      && s.pc[h].Receiving? && s.pc[h].received < n
    case Leave(h) => h < n && s.pc[h].Receiving? && s.pc[h].received >= n
  }

  /** What an event receives: the pair and the tag asked for. */
  function Receives(s: State, e: Event): (r: Option<(Pair, nat)>)
    requires e.Take? ==> e.h < |s.phase|
  {
    match e
    case Receive(h, src) => Some((Pair(src, h), 0))
    case Take(h, src) => Some((Pair(src, h), s.phase[h]))
    case _ => None
  }

  function FencePayload(h: nat): (b: seq<byte>) { Le(h + 1, 4) }

  /** What an event sends. */
  function Sends(n: nat, s: State, e: Event): (r: Option<(Pair, Fragment)>)
    requires e.SendNext? ==> e.h < |s.pc| == |s.phase| && s.pc[e.h].Sending?
  {
    match e
    case SendMsg(h, dst, payload) => Some((Pair(h, dst), Fragment(0, payload)))
    case SendNext(h) =>
      if s.pc[h].next < n && s.pc[h].next != h
      then Some((Pair(h, s.pc[h].next), Fragment(s.phase[h], FencePayload(h)))) else None
    case _ => None
  }

  /** Only the head of a pipe can be received, and only by its tag. */
  ghost predicate HeadHas(s: State, p: Pair, tag: nat)
    requires p in s.pipes
  {
    s.pipes[p].popped < |s.pipes[p].sent| && s.pipes[p].sent[s.pipes[p].popped].tag == tag
  }

  ghost predicate Enabled(n: nat, s: State, e: Event)
    requires WellFormed(n, s)
  {
    && Control(n, s, e)
    && (Receives(s, e).Some? ==> HeadHas(s, Receives(s, e).value.0, Receives(s, e).value.1))
  }

  ghost function Push(s: State, p: Pair, m: Fragment): (s': State)
    requires p in s.pipes
  {
    s.(pipes := s.pipes[p := Pipe(s.pipes[p].sent + [m], s.pipes[p].popped)])
  }

  ghost function Pop(s: State, p: Pair): (s': State)
    requires p in s.pipes
  {
    s.(pipes := s.pipes[p := Pipe(s.pipes[p].sent, s.pipes[p].popped + 1)])
  }

  ghost function EntryMarks(n: nat, s: State, h: nat): (m: map<Mark, nat>)
    requires WellFormed(n, s) && h < n
  {
    map d: nat | d < n :: Mark(h, d, s.fences[h]) := |s.pipes[Pair(h, d)].sent|
  }

  /** One iteration of the send loop, or its end. */
  ghost function SendStep(n: nat, s: State, h: nat): (s': State)
    requires WellFormed(n, s) && h < n && s.pc[h].Sending?
    ensures WellFormed(n, s')
  {
    var next := s.pc[h].next;
    if next >= n then s.(pc := s.pc[h := Receiving(1)])
    else
      var t := s.(pc := s.pc[h := Sending(next + 1)]);
      if next == h then t else Push(t, Pair(h, next), Fragment(s.phase[h], FencePayload(h)))
  }

  ghost function Apply(n: nat, s: State, e: Event): (s': State)
    requires WellFormed(n, s) && Enabled(n, s, e)
    ensures WellFormed(n, s')
  {
    match e
    case SendMsg(h, dst, payload) => Push(s, Pair(h, dst), Fragment(0, payload))
    case Enter(h) =>
      s.(pc := s.pc[h := Sending(0)], marks := s.marks + EntryMarks(n, s, h))
    case SendNext(h) => SendStep(n, s, h)
    case Receive(h, src) =>
      var p := Pair(src, h);
      Pop(s, p).(inHand := s.inHand[p := [s.pipes[p].sent[s.pipes[p].popped]]])
    case Finish(h, src) =>
      var p := Pair(src, h);
      s.(inHand := s.inHand[p := []], handled := s.handled[p := s.handled[p] + s.inHand[p]])
    case Take(h, src) =>
      Pop(s, Pair(src, h)).(pc := s.pc[h := Receiving(s.pc[h].received + 1)],
                            heard := s.heard[h := s.heard[h] + {src}])
    case Leave(h) =>
      s.(pc := s.pc[h := Outside], phase := s.phase[h := NextPhase(s.phase[h])],
         fences := s.fences[h := s.fences[h] + 1], heard := s.heard[h := {}])
  }

  // ----- fence messages and user messages of a pipe

  /** The number of fence messages, those with a phase as their tag. */
  ghost function FenceCount(q: seq<Fragment>): (k: nat)
  {
    if q == [] then 0
    else FenceCount(q[..|q| - 1]) + if q[|q| - 1].tag != 0 then 1 else 0
  }

  /** The messages for handlers, in order. */
  ghost function UserMessages(q: seq<Fragment>): (u: seq<Fragment>)
  {
    if q == [] then []
    else UserMessages(q[..|q| - 1]) + if q[|q| - 1].tag == 0 then [q[|q| - 1]] else []
  }

  lemma {:induction false} CountsSnoc(q: seq<Fragment>, m: Fragment)
    ensures FenceCount(q + [m]) == FenceCount(q) + if m.tag != 0 then 1 else 0
    ensures UserMessages(q + [m]) == UserMessages(q) + if m.tag == 0 then [m] else []
  {
    assert (q + [m])[..|q|] == q;
  }

  lemma {:induction false} CountsOfTake(q: seq<Fragment>, k: nat)
    requires k < |q|
    ensures FenceCount(q[..k + 1]) == FenceCount(q[..k]) + if q[k].tag != 0 then 1 else 0
    ensures UserMessages(q[..k + 1]) == UserMessages(q[..k]) + if q[k].tag == 0 then [q[k]] else []
  {
    assert q[..k + 1] == q[..k] + [q[k]];
    CountsSnoc(q[..k], q[k]);
  }

  lemma {:induction false} CountsMonotone(q: seq<Fragment>, a: nat, b: nat)
    requires a <= b <= |q|
    ensures FenceCount(q[..a]) <= FenceCount(q[..b])
    ensures UserMessages(q[..a]) <= UserMessages(q[..b])
    decreases b
  {
    if a < b {
      CountsMonotone(q, a, b - 1);
      CountsOfTake(q, b - 1);
    }
  }

  // ----- the invariant

  ghost predicate Entered(s: State, h: nat, fence: nat)
    requires h < |s.pc| == |s.fences|
  {
    s.fences[h] > fence || (s.fences[h] == fence && !s.pc[h].Outside?)
  }

  /** How many fence messages a host has sent to another. */
  ghost function FencesSent(s: State, p: Pair): (k: nat)
    requires p.src < |s.pc| == |s.fences|
  {
    if p.src == p.dst then 0 else
    s.fences[p.src] +
    if s.pc[p.src].Receiving? || (s.pc[p.src].Sending? && s.pc[p.src].next > p.dst) then 1 else 0
  }

  /** How many it has taken from another. */
  ghost function FencesTaken(s: State, p: Pair): (k: nat)
    requires p.dst < |s.fences| == |s.heard|
  {
    if p.src == p.dst then 0 else
    s.fences[p.dst] + if p.src in s.heard[p.dst] then 1 else 0
  }

  ghost predicate HostInv(n: nat, s: State, h: nat)
    requires WellFormed(n, s) && h < n
  {
    && s.phase[h] == Phase(s.fences[h])
    && h !in s.heard[h]
    && (forall k :: k in s.heard[h] ==> k < n)
    && (if s.pc[h].Receiving? then s.pc[h].received == 1 + |s.heard[h]| else s.heard[h] == {})
  }

  /** Every fence message of a pipe carries the phase of its own number. */
  ghost predicate Numbered(q: seq<Fragment>)
  {
    forall k :: 0 <= k < |q| && q[k].tag != 0 ==> q[k].tag == Phase(FenceCount(q[..k]))
  }

  ghost predicate PipeInv(n: nat, s: State, p: Pair)
    requires WellFormed(n, s) && p in s.pipes
  {
    var q, popped := s.pipes[p].sent, s.pipes[p].popped;
    && Numbered(q)
    && FenceCount(q) == FencesSent(s, p)
    && FenceCount(q[..popped]) == FencesTaken(s, p)
    && (s.inHand[p] != [] ==> popped > 0 && s.inHand[p] == [q[popped - 1]] && q[popped - 1].tag == 0)
    && s.handled[p] + s.inHand[p] == UserMessages(q[..popped])
  }

  ghost predicate MarkInv(n: nat, s: State, m: Mark)
    requires WellFormed(n, s) && m.src < n && m.dst < n
  {
    Entered(s, m.src, m.fence) ==>
      var q := s.pipes[Pair(m.src, m.dst)].sent;
      m in s.marks && s.marks[m] <= |q| && FenceCount(q[..s.marks[m]]) <= m.fence
  }

  ghost predicate Inv(n: nat, s: State)
  {
    && WellFormed(n, s)
    && (forall h: nat :: h < n ==> HostInv(n, s, h))
    && (forall p: Pair {:trigger PipeInv(n, s, p)} :: p in s.pipes ==> PipeInv(n, s, p))
    && (forall m: Mark :: m.src < n && m.dst < n ==> MarkInv(n, s, m))
  }

  lemma {:induction false} InitInv(n: nat, s: State)
    requires Init(n, s)
    ensures Inv(n, s)
  {
  }

  // ----- preservation, event by event

  lemma {:induction false} NumberedSnoc(q: seq<Fragment>, m: Fragment)
    requires Numbered(q) && (m.tag != 0 ==> m.tag == Phase(FenceCount(q)))
    ensures Numbered(q + [m])
  {
    var r := q + [m];
    forall k | 0 <= k < |r| && r[k].tag != 0 ensures r[k].tag == Phase(FenceCount(r[..k])) {
      assert r[..k] == q[..k];
      if k == |q| { assert q[..k] == q; }
    }
  }

  /** Sending on one pair. */
  lemma {:induction false} PushKeepsPipe(n: nat, s: State, s': State, p: Pair, m: Fragment)
    requires WellFormed(n, s) && WellFormed(n, s') && p in s.pipes && PipeInv(n, s, p)
    requires s'.pipes[p] == Pipe(s.pipes[p].sent + [m], s.pipes[p].popped)
    requires s'.handled[p] == s.handled[p] && s'.inHand[p] == s.inHand[p]
    requires m.tag != 0 ==> m.tag == Phase(FenceCount(s.pipes[p].sent))
    requires FencesSent(s', p) == FencesSent(s, p) + if m.tag != 0 then 1 else 0
    requires FencesTaken(s', p) == FencesTaken(s, p)
    ensures PipeInv(n, s', p)
  {
    var q, k := s.pipes[p].sent, s.pipes[p].popped;
    NumberedSnoc(q, m);
    CountsSnoc(q, m);
    assert (q + [m])[..k] == q[..k];
  }

  /** Receiving on one pair. */
  lemma {:induction false} PopKeepsPipe(n: nat, s: State, s': State, p: Pair, tag: nat)
    requires WellFormed(n, s) && WellFormed(n, s') && p in s.pipes && PipeInv(n, s, p) && HeadHas(s, p, tag)
    requires s'.pipes[p] == Pipe(s.pipes[p].sent, s.pipes[p].popped + 1)
    requires s'.handled[p] == s.handled[p] && s.inHand[p] == []
    requires s'.inHand[p] == if tag == 0 then [s.pipes[p].sent[s.pipes[p].popped]] else []
    requires FencesSent(s', p) == FencesSent(s, p)
    requires FencesTaken(s', p) == FencesTaken(s, p) + if tag != 0 then 1 else 0
    ensures PipeInv(n, s', p)
  {
    CountsOfTake(s.pipes[p].sent, s.pipes[p].popped);
  }

  /** A pair nothing happened on. */
  lemma {:induction false} IdleKeepsPipe(n: nat, s: State, s': State, p: Pair)
    requires WellFormed(n, s) && WellFormed(n, s') && p in s.pipes && PipeInv(n, s, p)
    requires s'.pipes[p] == s.pipes[p] && s'.handled[p] == s.handled[p] && s'.inHand[p] == s.inHand[p]
    requires FencesSent(s', p) == FencesSent(s, p) && FencesTaken(s', p) == FencesTaken(s, p)
    ensures PipeInv(n, s', p)
  {
  }

  /** Neighbouring fences have different phases, so a tag identifies one of two neighbours. */
  lemma {:induction false} SamePhase(a: nat, b: nat)
    requires Phase(a) == Phase(b) && b <= a <= b + 1
    ensures a == b
  {
  }

  /** The head of a pipe carries the phase a receiving host asks for only if that host has not
      heard from the source in this fence: the next fence of the source has another phase. */
  lemma {:induction false} TakenOncePerFence(n: nat, s: State, h: nat, src: nat)
    requires WellFormed(n, s) && Enabled(n, s, Take(h, src))
    requires HostInv(n, s, h) && PipeInv(n, s, Pair(src, h))
    ensures src != h && src !in s.heard[h]
  {
    var p := Pair(src, h);
    var q, k := s.pipes[p].sent, s.pipes[p].popped;
    assert q[k].tag == Phase(FenceCount(q[..k])) == Phase(s.fences[h]);
    assert src != h by {
      CountsOfTake(q, k);
      CountsMonotone(q, k + 1, |q|);
      assert q[..|q|] == q;
    }
    SamePhase(FencesTaken(s, p), s.fences[h]);
  }

  lemma {:induction false} TakeKeepsHost(n: nat, s: State, h: nat, src: nat)
    requires WellFormed(n, s) && Enabled(n, s, Take(h, src)) && HostInv(n, s, h) && PipeInv(n, s, Pair(src, h))
    ensures HostInv(n, Apply(n, s, Take(h, src)), h)
  {
    TakenOncePerFence(n, s, h, src);
    HearOne(n, s, h, src);
  }

  lemma {:induction false} HearOne(n: nat, s: State, h: nat, src: nat)
    requires WellFormed(n, s) && Enabled(n, s, Take(h, src)) && HostInv(n, s, h) && src != h && src !in s.heard[h]
    ensures HostInv(n, Apply(n, s, Take(h, src)), h)
  {
  }

  lemma {:induction false} LeaveKeepsHost(n: nat, s: State, h: nat)
    requires WellFormed(n, s) && Enabled(n, s, Leave(h)) && HostInv(n, s, h)
    ensures HostInv(n, Apply(n, s, Leave(h)), h)
  {
    PhaseAdvances(s.fences[h]);
  }

  lemma {:induction false} OtherKeepsHost(n: nat, s: State, e: Event, h: nat)
    requires WellFormed(n, s) && Enabled(n, s, e) && h < n && HostInv(n, s, h) && e.h != h
    ensures HostInv(n, Apply(n, s, e), h)
  {
    assert Apply(n, s, e).heard[h] == s.heard[h] && Apply(n, s, e).pc[h] == s.pc[h];
  }

  lemma {:induction false} OwnKeepsHost(n: nat, s: State, e: Event, h: nat)
    requires WellFormed(n, s) && Enabled(n, s, e) && h < n && HostInv(n, s, h) && e.h == h && !e.Take? && !e.Leave?
    ensures HostInv(n, Apply(n, s, e), h)
  {
  }

  lemma {:induction false} StepKeepsHost(n: nat, s: State, e: Event, h: nat)
    requires WellFormed(n, s) && Enabled(n, s, e) && h < n && HostInv(n, s, h)
    requires e.Take? && e.h == h ==> PipeInv(n, s, Pair(e.src, h))
    ensures HostInv(n, Apply(n, s, e), h)
  {
    if e.h != h {
      OtherKeepsHost(n, s, e, h);
    } else if e.Take? {
      TakeKeepsHost(n, s, h, e.src);
    } else if e.Leave? {
      LeaveKeepsHost(n, s, h);
    } else {
      OwnKeepsHost(n, s, e, h);
    }
  }

  ghost function UpTo(n: nat): (r: set<nat>)
    ensures |r| == n && forall k: nat :: k in r <==> k < n
  {
    if n == 0 then {} else UpTo(n - 1) + {n - 1}
  }

  /** A host leaves a fence only when it has heard from all others. */
  lemma {:induction false} LeaveHeardAll(n: nat, s: State, h: nat)
    requires WellFormed(n, s) && Enabled(n, s, Leave(h)) && HostInv(n, s, h)
    ensures forall k: nat :: k < n && k != h ==> k in s.heard[h]
  {
    var others := UpTo(n) - {h};
    assert s.heard[h] <= others;
    assert |others - s.heard[h]| == |others| - |s.heard[h]|;
    forall k: nat | k < n && k != h ensures k in s.heard[h] {
      assert k in others && others - s.heard[h] == {};
    }
  }

  lemma {:induction false} SendMsgKeepsPipe(n: nat, s: State, e: Event, p: Pair)
    requires WellFormed(n, s) && p in s.pipes && PipeInv(n, s, p)
    requires e.SendMsg? && Enabled(n, s, e)
    ensures PipeInv(n, Apply(n, s, e), p)
  {
    if p == Pair(e.h, e.dst) { PushKeepsPipe(n, s, Apply(n, s, e), p, Fragment(0, e.payload)); }
    else { IdleKeepsPipe(n, s, Apply(n, s, e), p); }
  }

  lemma {:induction false} EnterKeepsPipe(n: nat, s: State, h: nat, p: Pair)
    requires WellFormed(n, s) && p in s.pipes && PipeInv(n, s, p) && Enabled(n, s, Enter(h))
    ensures PipeInv(n, Apply(n, s, Enter(h)), p)
  {
    IdleKeepsPipe(n, s, Apply(n, s, Enter(h)), p);
  }

  lemma {:induction false} SendNextKeepsTarget(n: nat, s: State, h: nat, p: Pair)
    requires WellFormed(n, s) && p in s.pipes && PipeInv(n, s, p)
    requires h < n && s.pc[h].Sending? && HostInv(n, s, h) && h != s.pc[h].next && p == Pair(h, s.pc[h].next)
    ensures PipeInv(n, SendStep(n, s, h), p)
  {
    PushKeepsPipe(n, s, SendStep(n, s, h), p, Fragment(s.phase[h], FencePayload(h)));
  }

  lemma {:induction false} SendNextKeepsPipe(n: nat, s: State, h: nat, p: Pair)
    requires WellFormed(n, s) && p in s.pipes && PipeInv(n, s, p)
    requires h < n && s.pc[h].Sending? && HostInv(n, s, h)
    ensures PipeInv(n, SendStep(n, s, h), p)
  {
    if h != s.pc[h].next && p == Pair(h, s.pc[h].next) {
      SendNextKeepsTarget(n, s, h, p);
    } else {
      IdleKeepsPipe(n, s, SendStep(n, s, h), p);
    }
  }

  lemma {:induction false} ReceiveKeepsPipe(n: nat, s: State, h: nat, src: nat, p: Pair)
    requires WellFormed(n, s) && p in s.pipes && PipeInv(n, s, p) && Enabled(n, s, Receive(h, src))
    ensures PipeInv(n, Apply(n, s, Receive(h, src)), p)
  {
    var s' := Apply(n, s, Receive(h, src));
    if p == Pair(src, h) { PopKeepsPipe(n, s, s', p, 0); } else { IdleKeepsPipe(n, s, s', p); }
  }

  lemma {:induction false} FinishKeepsPipe(n: nat, s: State, h: nat, src: nat, p: Pair)
    requires WellFormed(n, s) && p in s.pipes && PipeInv(n, s, p) && Enabled(n, s, Finish(h, src))
    ensures PipeInv(n, Apply(n, s, Finish(h, src)), p)
  {
    if p != Pair(src, h) { IdleKeepsPipe(n, s, Apply(n, s, Finish(h, src)), p); }
  }

  lemma {:induction false} TakeKeepsSource(n: nat, s: State, h: nat, src: nat)
    requires WellFormed(n, s) && Enabled(n, s, Take(h, src)) && PipeInv(n, s, Pair(src, h))
    requires src != h && src !in s.heard[h] && s.phase[h] != 0
    ensures PipeInv(n, Apply(n, s, Take(h, src)), Pair(src, h))
  {
    PopKeepsPipe(n, s, Apply(n, s, Take(h, src)), Pair(src, h), s.phase[h]);
  }

  lemma {:induction false} TakeKeepsPipe(n: nat, s: State, h: nat, src: nat, p: Pair)
    requires WellFormed(n, s) && p in s.pipes && PipeInv(n, s, p)
    requires Enabled(n, s, Take(h, src)) && HostInv(n, s, h) && PipeInv(n, s, Pair(src, h))
    ensures PipeInv(n, Apply(n, s, Take(h, src)), p)
  {
    TakenOncePerFence(n, s, h, src);
    if p == Pair(src, h) { TakeKeepsSource(n, s, h, src); } else { IdleKeepsPipe(n, s, Apply(n, s, Take(h, src)), p); }
  }

  lemma {:induction false} LeaveKeepsPipe(n: nat, s: State, h: nat, p: Pair)
    requires WellFormed(n, s) && p in s.pipes && PipeInv(n, s, p)
    requires Enabled(n, s, Leave(h)) && HostInv(n, s, h)
    ensures PipeInv(n, Apply(n, s, Leave(h)), p)
  {
    LeaveHeardAll(n, s, h);
    IdleKeepsPipe(n, s, Apply(n, s, Leave(h)), p);
  }

  lemma {:induction false} StepKeepsPipe(n: nat, s: State, e: Event, p: Pair)
    requires Inv(n, s) && Enabled(n, s, e) && p in s.pipes
    ensures PipeInv(n, Apply(n, s, e), p)
  {
    assert PipeInv(n, s, p) && HostInv(n, s, e.h);
    match e
    case SendMsg(h, dst, payload) => SendMsgKeepsPipe(n, s, e, p);
    case Enter(h) => EnterKeepsPipe(n, s, h, p);
    case SendNext(h) => SendNextKeepsPipe(n, s, h, p);
    case Receive(h, src) => ReceiveKeepsPipe(n, s, h, src, p);
    case Finish(h, src) => FinishKeepsPipe(n, s, h, src, p);
    case Take(h, src) =>
      assert PipeInv(n, s, Pair(src, h));
      TakeKeepsPipe(n, s, h, src, p);
    case Leave(h) => LeaveKeepsPipe(n, s, h, p);
  }

  /** The pipe of one pair after an event. */
  ghost function PipeAfter(n: nat, s: State, e: Event, p: Pair): (q: Pipe)
    requires WellFormed(n, s) && Control(n, s, e) && p in s.pipes
  {
    var r, m, q := Receives(s, e), Sends(n, s, e), s.pipes[p];
    if r.Some? && p == r.value.0 then Pipe(q.sent, q.popped + 1)
    else if m.Some? && p == m.value.0 then Pipe(q.sent + [m.value.1], q.popped)
    else q
  }

  lemma {:induction false} PipesOfSend(n: nat, s: State, h: nat, p: Pair)
    requires WellFormed(n, s) && h < n && s.pc[h].Sending? && p in s.pipes
    ensures SendStep(n, s, h).pipes[p] == PipeAfter(n, s, SendNext(h), p)
  {
  }

  lemma {:induction false} PipesOf(n: nat, s: State, e: Event, p: Pair)
    requires WellFormed(n, s) && Enabled(n, s, e) && p in s.pipes
    ensures Apply(n, s, e).pipes[p] == PipeAfter(n, s, e, p)
  {
    if e.SendNext? { PipesOfSend(n, s, e.h, p); }
  }

  lemma {:induction false} MarksOf(n: nat, s: State, e: Event)
    requires WellFormed(n, s) && Enabled(n, s, e) && !e.Enter?
    ensures Apply(n, s, e).marks == s.marks
  {
  }

  /** Besides entering, no event changes whether a host has entered a fence. */
  lemma {:induction false} EnteredKept(n: nat, s: State, e: Event, h: nat, fence: nat)
    requires WellFormed(n, s) && Enabled(n, s, e) && !e.Enter? && h < n
    ensures Entered(Apply(n, s, e), h, fence) <==> Entered(s, h, fence)
  {
    if e.h != h { assert Apply(n, s, e).pc[h] == s.pc[h] && Apply(n, s, e).fences[h] == s.fences[h]; }
  }

  /** A mark stays as it was set when its source entered. */
  lemma {:induction false} MarkStays(n: nat, s: State, e: Event, m: Mark)
    requires WellFormed(n, s) && Enabled(n, s, e) && m.src < n && Entered(s, m.src, m.fence) && m in s.marks
    ensures Entered(Apply(n, s, e), m.src, m.fence)
    ensures m in Apply(n, s, e).marks && Apply(n, s, e).marks[m] == s.marks[m]
  {
    if e.Enter? { assert m !in EntryMarks(n, s, e.h); } else { MarksOf(n, s, e); EnteredKept(n, s, e, m.src, m.fence); }
  }

  /** Entering a fence marks how much each channel of the host has carried. */
  lemma {:induction false} EnterSetsMark(n: nat, s: State, h: nat, m: Mark)
    requires WellFormed(n, s) && Enabled(n, s, Enter(h)) && m.src < n && m.dst < n && !Entered(s, m.src, m.fence)
    ensures var s' := Apply(n, s, Enter(h));
            Entered(s', m.src, m.fence) ==>
              h == m.src && s.fences[h] == m.fence && m in s'.marks && s'.marks[m] == |s.pipes[Pair(m.src, m.dst)].sent|
  {
    if h == m.src && s.fences[h] == m.fence { assert m == Mark(h, m.dst, s.fences[h]); }
  }

  lemma {:induction false} EnterKeepsMark(n: nat, s: State, h: nat, m: Mark)
    requires WellFormed(n, s) && Enabled(n, s, Enter(h)) && m.src < n && m.dst < n
    requires MarkInv(n, s, m) && PipeInv(n, s, Pair(m.src, m.dst))
    ensures MarkInv(n, Apply(n, s, Enter(h)), m)
  {
    var q := s.pipes[Pair(m.src, m.dst)].sent;
    assert m == Mark(m.src, m.dst, m.fence) && q[..|q|] == q;
    assert m in EntryMarks(n, s, h) <==> m.src == h && m.fence == s.fences[h];
  }

  lemma {:induction false} GrowthKeepsMark(n: nat, s: State, s': State, m: Mark)
    requires WellFormed(n, s) && WellFormed(n, s') && m.src < n && m.dst < n && MarkInv(n, s, m)
    requires s.pipes[Pair(m.src, m.dst)].sent <= s'.pipes[Pair(m.src, m.dst)].sent
    requires s'.marks == s.marks && (Entered(s', m.src, m.fence) <==> Entered(s, m.src, m.fence))
    ensures MarkInv(n, s', m)
  {
    var p := Pair(m.src, m.dst);
    if Entered(s, m.src, m.fence) {
      assert s'.pipes[p].sent[..s.marks[m]] == s.pipes[p].sent[..s.marks[m]];
    }
  }

  lemma {:induction false} StepKeepsMark(n: nat, s: State, e: Event, m: Mark)
    requires WellFormed(n, s) && Enabled(n, s, e) && m.src < n && m.dst < n
    requires MarkInv(n, s, m) && PipeInv(n, s, Pair(m.src, m.dst))
    ensures MarkInv(n, Apply(n, s, e), m)
  {
    if e.Enter? {
      EnterKeepsMark(n, s, e.h, m);
    } else {
      PipesOf(n, s, e, Pair(m.src, m.dst));
      EnteredKept(n, s, e, m.src, m.fence);
      MarksOf(n, s, e);
      GrowthKeepsMark(n, s, Apply(n, s, e), m);
    }
  }

  lemma {:induction false} StepKeepsInv(n: nat, s: State, e: Event)
    requires Inv(n, s) && Enabled(n, s, e)
    ensures Inv(n, Apply(n, s, e))
  {
    forall h: nat | h < n ensures HostInv(n, Apply(n, s, e), h) { StepKeepsHost(n, s, e, h); }
    forall p: Pair | p in Apply(n, s, e).pipes ensures PipeInv(n, Apply(n, s, e), p) {
      StepKeepsPipe(n, s, e, p);
    }
    forall m: Mark | m.src < n && m.dst < n ensures MarkInv(n, Apply(n, s, e), m) {
      assert MarkInv(n, s, m) && PipeInv(n, s, Pair(m.src, m.dst));
      StepKeepsMark(n, s, e, m);
    }
  }

  // ----- what the fence promises

  /** What has been handled, with what is in hand, are the first of the messages sent. */
  lemma {:induction false} HandledIsFirst(n: nat, s: State, p: Pair)
    requires WellFormed(n, s) && p in s.pipes && PipeInv(n, s, p)
    ensures s.handled[p] + s.inHand[p] <= UserMessages(s.pipes[p].sent)
  {
    var q, k := s.pipes[p].sent, s.pipes[p].popped;
    CountsMonotone(q, k, |q|);
    assert q[..|q|] == q;
  }

  lemma {:induction false} SnocInjective<T>(a: seq<T>, b: seq<T>, x: T)
    requires a + [x] == b + [x]
    ensures a == b
  {
    assert a == (a + [x])[..|a|] && b == (b + [x])[..|b|];
  }

  /** The message in hand was popped after every fence message taken, so what its pair had
      carried before the last of them has been handled. */
  lemma {:induction false} HandledBeforeFence(n: nat, s: State, p: Pair, mark: nat)
    requires WellFormed(n, s) && p in s.pipes && PipeInv(n, s, p) && mark <= |s.pipes[p].sent|
    requires FenceCount(s.pipes[p].sent[..mark]) < FencesTaken(s, p)
    ensures mark <= s.pipes[p].popped && UserMessages(s.pipes[p].sent[..mark]) <= s.handled[p]
  {
    var q, k := s.pipes[p].sent, s.pipes[p].popped;
    var last := if s.inHand[p] == [] then k else k - 1;
    if s.inHand[p] == [] {
      assert s.handled[p] + [] == s.handled[p];
    } else {
      CountsOfTake(q, k - 1);
      SnocInjective(UserMessages(q[..k - 1]), s.handled[p], q[k - 1]);
    }
    assert FenceCount(q[..last]) == FencesTaken(s, p) && UserMessages(q[..last]) == s.handled[p];
    if last < mark { CountsMonotone(q, last, mark); }
    CountsMonotone(q, mark, last);
  }

  /** When host h has passed a fence, every other host has entered that fence, and every message
      it had sent to h before entering has been handled on h, in order. */
  lemma {:induction false} FencePromise(n: nat, s: State, h: nat, src: nat, fence: nat)
    requires Inv(n, s) && h < n && src < n && src != h && s.fences[h] > fence
    ensures Entered(s, src, fence)
    ensures var m := Mark(src, h, fence);
            && m in s.marks && s.marks[m] <= |s.pipes[Pair(src, h)].sent|
            && s.marks[m] <= s.pipes[Pair(src, h)].popped
            && UserMessages(s.pipes[Pair(src, h)].sent[..s.marks[m]]) <= s.handled[Pair(src, h)]
  {
    var p, m := Pair(src, h), Mark(src, h, fence);
    var q, k := s.pipes[p].sent, s.pipes[p].popped;
    assert PipeInv(n, s, p) && MarkInv(n, s, m);
    CountsMonotone(q, k, |q|);
    assert q[..|q|] == q;
    assert FenceCount(q[..k]) > fence;
    assert Entered(s, src, fence);
    HandledBeforeFence(n, s, p, s.marks[m]);
  }

  /** Hosts are never more than one fence apart. */
  lemma {:induction false} OneFenceApart(n: nat, s: State, h: nat, k: nat)
    requires Inv(n, s) && h < n && k < n
    ensures s.fences[h] <= s.fences[k] + 1
  {
    if h != k && s.fences[h] > 0 { FencePromise(n, s, h, k, s.fences[h] - 1); }
  }

  // ----- progress

  /** A receiving host that has not heard enough has not heard from some other host. */
  lemma {:induction false} Unheard(n: nat, s: State, h: nat) returns (src: nat)
    requires WellFormed(n, s) && h < n && HostInv(n, s, h)
    requires s.pc[h].Receiving? && s.pc[h].received < n
    ensures src < n && src != h && src !in s.heard[h]
  {
    var others := UpTo(n) - {h};
    assert s.heard[h] <= others;
    assert |others - s.heard[h]| == |others| - |s.heard[h]|;
    assert others - s.heard[h] != {};
    src :| src in others - s.heard[h];
  }

  /** What a receiving host still lacks from a host that has sent its fence messages is under
      way, and the receiver asks for whatever comes first: a message for a handler, or the
      fence message of the awaited phase. */
  lemma {:induction false} AwaitedIsUnderWay(n: nat, s: State, h: nat, src: nat)
    requires WellFormed(n, s) && h < n && src < n && src != h && HostInv(n, s, h) && PipeInv(n, s, Pair(src, h))
    requires s.pc[h].Receiving? && src !in s.heard[h] && Entered(s, src, s.fences[h])
    requires s.fences[src] > s.fences[h] || !s.pc[src].Sending?
    ensures HeadHas(s, Pair(src, h), 0) || HeadHas(s, Pair(src, h), s.phase[h])
  {
    var q, k := s.pipes[Pair(src, h)].sent, s.pipes[Pair(src, h)].popped;
    assert q[..|q|] == q;
    assert FenceCount(q) > FenceCount(q[..k]);
    assert q[k].tag != 0 ==> q[k].tag == Phase(FenceCount(q[..k]));
  }
}
