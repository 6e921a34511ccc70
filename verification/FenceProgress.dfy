/** The host fence comes to an end: while all hosts have entered a fence some step of it can be
    taken, and only a bounded number of such steps can be taken before every host has left it. */
module FenceProgress {
  import opened Arith
  import opened RecvBuffer
  import Channel
  import opened HostFence
  import opened FenceStack

  // ----- some step can be taken

  /** The events of a fence under way: no new message of a user, no new fence, no flush. */
  predicate Advances(e: StackEvent)
  {
    match e
    case Net(p, c) => Channel.Moves(c)
    case Host(x) => !x.SendMsg? && !x.Enter?
  }

  /** What a receiving host can do once the head of a channel has arrived. */
  function Next(s: State, h: nat, src: nat, tag: nat): (e: Event)
    requires Pair(src, h) in s.inHand
  {
    if s.inHand[Pair(src, h)] != [] then Finish(h, src)
    else if tag == 0 then Receive(h, src)
    else Take(h, src)
  }

  lemma {:induction false} HostGoesOn(n: nat, k: Stack, h: nat, src: nat, tag: nat)
    requires WellFormedStack(n, k) && h < n && src < n
    requires k.hosts.pc[h].Receiving? && k.hosts.pc[h].received < n
    requires tag == 0 || tag == k.hosts.phase[h]
    requires Channel.Enabled(k.chan[Pair(src, h)], Channel.PopMsg(tag))
    ensures StackEnabled(n, k, Host(Next(k.hosts, h, src, tag)))
  {
  }

  lemma {:induction false} ChannelGoesOn(c: Channel.State, q: Pipe) returns (e: Channel.Event)
    requires PairCoupled(c, q) && q.popped < |q.sent|
    ensures Channel.Enabled(c, e) && (Channel.Moves(e) || e == Channel.PopMsg(q.sent[q.popped].tag))
  {
    e := Channel.NeverStuck(c);
  }

  /** While a message for h is under way that h would accept, something can happen to it. */
  lemma {:induction false} PairGoesOn(n: nat, k: Stack, h: nat, src: nat) returns (e: StackEvent)
    requires WellFormedStack(n, k) && h < n && src < n
    requires PairCoupled(k.chan[Pair(src, h)], k.hosts.pipes[Pair(src, h)])
    requires k.hosts.pc[h].Receiving? && k.hosts.pc[h].received < n
    requires HeadHas(k.hosts, Pair(src, h), 0) || HeadHas(k.hosts, Pair(src, h), k.hosts.phase[h])
    ensures StackEnabled(n, k, e) && Advances(e)
  {
    var p := Pair(src, h);
    var c := ChannelGoesOn(k.chan[p], k.hosts.pipes[p]);
    if c.PopMsg? {
      HostGoesOn(n, k, h, src, c.tag);
      e := Host(Next(k.hosts, h, src, c.tag));
    } else {
      e := Net(p, c);
    }
  }

  lemma {:induction false} SendGoesOn(n: nat, k: Stack, h: nat)
    requires WellFormedStack(n, k) && h < n && k.hosts.pc[h].Sending?
    ensures StackEnabled(n, k, Host(SendNext(h)))
  {
  }

  lemma {:induction false} ReceiverGoesOn(n: nat, k: Stack, h: nat) returns (e: StackEvent)
    requires StackInv(n, k) && h < n && k.hosts.pc[h].Receiving? && k.hosts.pc[h].received < n
    requires forall g: nat :: g < n ==> Entered(k.hosts, g, k.hosts.fences[h])
    ensures StackEnabled(n, k, e) && Advances(e)
  {
    var s := k.hosts;
    assert HostInv(n, s, h);
    var src := Unheard(n, s, h);
    assert Entered(s, src, s.fences[h]);
    if s.fences[src] == s.fences[h] && s.pc[src].Sending? {
      SendGoesOn(n, k, src);
      e := Host(SendNext(src));
    } else {
      assert PipeInv(n, s, Pair(src, h)) && PairCoupled(k.chan[Pair(src, h)], s.pipes[Pair(src, h)]);
      AwaitedIsUnderWay(n, s, h, src);
      e := PairGoesOn(n, k, h, src);
    }
  }

  lemma {:induction false} InsideGoesOn(n: nat, d: Stack, h: nat) returns (e: StackEvent)
    requires StackInv(n, d) && h < n && !d.hosts.pc[h].Outside?
    requires forall g: nat :: g < n ==> Entered(d.hosts, g, d.hosts.fences[h])
    ensures StackEnabled(n, d, e) && Advances(e)
  {
    if d.hosts.pc[h].Sending? {
      SendGoesOn(n, d, h);
      e := Host(SendNext(h));
    } else if d.hosts.pc[h].received >= n {
      e := Host(Leave(h));
    } else {
      e := ReceiverGoesOn(n, d, h);
    }
  }

  /** The fence is never stuck: in every state of every run, while a host is inside wait and all
      hosts have entered that fence, some step of a fence under way can be taken. */
  lemma {:induction false} FenceNeverStuck(n: nat, k: Stack, events: seq<StackEvent>, h: nat)
    returns (e: StackEvent)
    requires InitStack(n, k) && h < n
    requires var s := RunFrom(n, k, events).hosts;
             && !s.pc[h].Outside?
             && (forall g: nat :: g < n ==> Entered(s, g, s.fences[h]))
    ensures StackEnabled(n, RunFrom(n, k, events), e) && Advances(e)
  {
    e := InsideGoesOn(n, RunFrom(n, k, events), h);
  }

  // ----- only boundedly many can

  /** What the worker still has to do, beyond eleven steps for a queued message, or has done. */
  function Extra(w: Channel.Worker): (k: int)
  {
    match w
    case Idle => 0 case Copying(_) => -1 case Testing(_) => -2 case Decrementing(_) => -3 case Popping(_) => -4
    case Finishing(_) => 5 case Holding(_) => 4
  }

  /** The steps left for the messages of a pair: in the queue, in frames, to be received and
      handled. */
  function PairWeight(c: Channel.State, hand: seq<Fragment>): (k: int)
  {
    11 * |c.queue| + Extra(c.worker) + 3 * |c.net| + 2 * |c.probed| + |c.done| + 2 * (|c.sent| - c.popped) + |hand|
  }

  lemma {:induction false} PairWeightNatural(c: Channel.State, hand: seq<Fragment>)
    requires Channel.Inv(c)
    ensures PairWeight(c, hand) >= 0
  {
  }

  /** A moving step takes one of them; a flush or the end of a send takes none. */
  lemma {:induction false} NetLightens(c: Channel.State, e: Channel.Event, hand: seq<Fragment>)
    requires Channel.Enabled(c, e) && Internal(e)
    ensures PairWeight(Channel.Apply(c, e), hand) <= PairWeight(c, hand) - if Channel.Moves(e) then 1 else 0
  {
  }

  lemma {:induction false} PopLightens(c: Channel.State, tag: nat)
    requires Channel.Enabled(c, Channel.PopMsg(tag))
    ensures PairWeight(Channel.Apply(c, Channel.PopMsg(tag)), []) == PairWeight(c, []) - 2
  {
  }

  lemma {:induction false} SendWeighs(c: Channel.State, m: Fragment, hand: seq<Fragment>)
    requires Channel.Legal(m)
    ensures PairWeight(SendOn(c, m), hand) == PairWeight(c, hand) + 13
  {
  }

  /** The steps left for a host, with those for the messages it will send. */
  function HostWeight(n: nat, pc: PC): (k: nat)
  {
    match pc
    case Outside => 0
    case Sending(next) => 2 + 14 * (if next < n then n - next else 0)
    case Receiving(_) => 1
  }

  function HostWeights(n: nat, pc: seq<PC>): (ks: seq<nat>)
    ensures |ks| == |pc|
  {
    seq(|pc|, h requires 0 <= h < |pc| => HostWeight(n, pc[h]))
  }

  lemma {:induction false} HostMoves(n: nat, pc: seq<PC>, h: nat, pc': PC)
    requires h < |pc|
    ensures Sum(HostWeights(n, pc[h := pc'])) == Sum(HostWeights(n, pc)) - HostWeight(n, pc[h]) + HostWeight(n, pc')
  {
    SumUpdate(HostWeights(n, pc), h, HostWeight(n, pc'));
    assert HostWeights(n, pc)[h := HostWeight(n, pc')] == HostWeights(n, pc[h := pc']);
  }

  ghost function PairWeights(ps: set<Pair>, chan: map<Pair, Channel.State>, hand: map<Pair, seq<Fragment>>): (k: int)
    requires ps <= chan.Keys && ps <= hand.Keys
  {
    if ps == {} then 0 else
    var p :| p in ps;
    PairWeight(chan[p], hand[p]) + PairWeights(ps - {p}, chan, hand)
  }

  lemma {:induction false} TakeOut(ps: set<Pair>, chan: map<Pair, Channel.State>, hand: map<Pair, seq<Fragment>>, p: Pair)
    requires ps <= chan.Keys && ps <= hand.Keys && p in ps
    ensures PairWeights(ps, chan, hand) == PairWeight(chan[p], hand[p]) + PairWeights(ps - {p}, chan, hand)
    decreases |ps|
  {
    var q :| q in ps && PairWeights(ps, chan, hand) == PairWeight(chan[q], hand[q]) + PairWeights(ps - {q}, chan, hand);
    if p != q {
      TakeOut(ps - {q}, chan, hand, p);
      TakeOut(ps - {p}, chan, hand, q);
      assert ps - {q} - {p} == ps - {p} - {q};
    }
  }

  lemma {:induction false} Untouched(ps: set<Pair>, chan: map<Pair, Channel.State>, chan': map<Pair, Channel.State>,
                                     hand: map<Pair, seq<Fragment>>, hand': map<Pair, seq<Fragment>>)
    requires ps <= chan.Keys && ps <= hand.Keys && ps <= chan'.Keys && ps <= hand'.Keys
    requires forall p :: p in ps ==> chan'[p] == chan[p] && hand'[p] == hand[p]
    ensures PairWeights(ps, chan', hand') == PairWeights(ps, chan, hand)
    decreases |ps|
  {
    if ps != {} {
      var p :| p in ps;
      TakeOut(ps, chan, hand, p);
      TakeOut(ps, chan', hand', p);
      Untouched(ps - {p}, chan, chan', hand, hand');
    }
  }

  lemma {:induction false} PairMoves(chan: map<Pair, Channel.State>, hand: map<Pair, seq<Fragment>>, p: Pair,
                                     c: Channel.State, m: seq<Fragment>)
    requires chan.Keys == hand.Keys && p in chan
    ensures PairWeights(chan.Keys, chan[p := c], hand[p := m]) ==
            PairWeights(chan.Keys, chan, hand) - PairWeight(chan[p], hand[p]) + PairWeight(c, m)
  {
    TakeOut(chan.Keys, chan, hand, p);
    TakeOut(chan.Keys, chan[p := c], hand[p := m], p);
    Untouched(chan.Keys - {p}, chan, chan[p := c], hand, hand[p := m]);
  }

  lemma {:induction false} PairsNatural(ps: set<Pair>, chan: map<Pair, Channel.State>, hand: map<Pair, seq<Fragment>>)
    requires ps <= chan.Keys && ps <= hand.Keys && forall p :: p in ps ==> PairWeight(chan[p], hand[p]) >= 0
    ensures PairWeights(ps, chan, hand) >= 0
    decreases |ps|
  {
    if ps != {} {
      var p :| p in ps;
      TakeOut(ps, chan, hand, p);
      PairsNatural(ps - {p}, chan, hand);
    }
  }

  /** A bound on the steps of a fence under way that can still be taken. */
  ghost function Weight(n: nat, pc: seq<PC>, chan: map<Pair, Channel.State>, hand: map<Pair, seq<Fragment>>): (m: int)
    requires chan.Keys == hand.Keys
  {
    Sum(HostWeights(n, pc)) + PairWeights(chan.Keys, chan, hand)
  }

  ghost function Measure(n: nat, k: Stack): (m: int)
    requires WellFormedStack(n, k)
  {
    Weight(n, k.hosts.pc, k.chan, k.inHand)
  }

  lemma {:induction false} MeasureNatural(n: nat, k: Stack)
    requires Coupled(n, k)
    ensures Measure(n, k) >= 0
  {
    forall p | p in k.chan ensures PairWeight(k.chan[p], k.inHand[p]) >= 0 {
      assert PairCoupled(k.chan[p], k.hosts.pipes[p]);
      PairWeightNatural(k.chan[p], k.inHand[p]);
    }
    PairsNatural(k.chan.Keys, k.chan, k.inHand);
  }

  /** What an event does to one host and one pair. */
  lemma {:induction false} WeightMoves(n: nat, pc: seq<PC>, chan: map<Pair, Channel.State>, hand: map<Pair, seq<Fragment>>,
                                       h: nat, pc': PC, p: Pair, c: Channel.State, m: seq<Fragment>)
    requires chan.Keys == hand.Keys && p in chan && h < |pc|
    ensures Weight(n, pc[h := pc'], chan[p := c], hand[p := m]) == Weight(n, pc, chan, hand)
            + PairWeight(c, m) - PairWeight(chan[p], hand[p]) + HostWeight(n, pc') - HostWeight(n, pc[h])
  {
    HostMoves(n, pc, h, pc');
    PairMoves(chan, hand, p, c, m);
    assert chan[p := c].Keys == chan.Keys;
  }

  lemma {:induction false} PairAlone(n: nat, pc: seq<PC>, chan: map<Pair, Channel.State>, hand: map<Pair, seq<Fragment>>,
                                     p: Pair, c: Channel.State, m: seq<Fragment>)
    requires chan.Keys == hand.Keys && p in chan
    ensures Weight(n, pc, chan[p := c], hand[p := m]) ==
            Weight(n, pc, chan, hand) + PairWeight(c, m) - PairWeight(chan[p], hand[p])
  {
    PairMoves(chan, hand, p, c, m);
    assert chan[p := c].Keys == chan.Keys;
  }

  lemma {:induction false} HandAlone(n: nat, pc: seq<PC>, chan: map<Pair, Channel.State>, hand: map<Pair, seq<Fragment>>, p: Pair)
    requires chan.Keys == hand.Keys && p in chan
    ensures Weight(n, pc, chan, hand[p := []]) == Weight(n, pc, chan, hand) - |hand[p]|
  {
    PairAlone(n, pc, chan, hand, p, chan[p], []);
    assert chan[p := chan[p]] == chan;
  }

  /** One message more in a pair, for fourteen steps less of a host. */
  lemma {:induction false} SendMoves(n: nat, pc: seq<PC>, chan: map<Pair, Channel.State>, hand: map<Pair, seq<Fragment>>,
                                     h: nat, next: nat, p: Pair, m: Fragment)
    requires chan.Keys == hand.Keys && p in chan && h < |pc| && pc[h] == Sending(next) && next < n && Channel.Legal(m)
    ensures Weight(n, pc[h := Sending(next + 1)], chan[p := SendOn(chan[p], m)], hand) < Weight(n, pc, chan, hand)
  {
    SendWeighs(chan[p], m, hand[p]);
    WeightMoves(n, pc, chan, hand, h, Sending(next + 1), p, SendOn(chan[p], m), hand[p]);
    assert hand[p := hand[p]] == hand;
  }

  // ----- event by event

  /** Where a host is after its event. */
  function PcAfter(n: nat, pc: PC, x: Event): (pc': PC)
    requires x.SendNext? ==> pc.Sending?
    requires x.Take? ==> pc.Receiving?
  {
    match x
    case Enter(_) => Sending(0)
    case SendNext(_) => if pc.next >= n then Receiving(1) else Sending(pc.next + 1)
    case Take(_, _) => Receiving(pc.received + 1)
    case Leave(_) => Outside
    case _ => pc
  }

  lemma {:induction false} PcOf(n: nat, s: State, x: Event)
    requires WellFormed(n, s) && Enabled(n, s, x)
    ensures Apply(n, s, x).pc == s.pc[x.h := PcAfter(n, s.pc[x.h], x)]
  {
    if x.SendNext? { PcOfSend(n, s, x.h); }
    else if x.SendMsg? || x.Receive? || x.Finish? { assert s.pc[x.h := s.pc[x.h]] == s.pc; }
  }

  lemma {:induction false} PcOfSend(n: nat, s: State, h: nat)
    requires WellFormed(n, s) && h < n && s.pc[h].Sending?
    ensures SendStep(n, s, h).pc == s.pc[h := PcAfter(n, s.pc[h], SendNext(h))]
  {
  }

  /** The weight after a host event. */
  ghost function WeightAfter(n: nat, k: Stack, x: Event): (m: int)
    requires WellFormedStack(n, k) && StackEnabled(n, k, Host(x))
  {
    ChansKeys(n, k, x);
    Weight(n, k.hosts.pc[x.h := PcAfter(n, k.hosts.pc[x.h], x)], Chans(n, k, x), InHandAfter(n, k, x))
  }

  lemma {:induction false} ReceiveStep(n: nat, k: Stack, h: nat, src: nat)
    requires WellFormedStack(n, k) && StackEnabled(n, k, Host(Receive(h, src)))
    requires k.inHand[Pair(src, h)] == []
    ensures WeightAfter(n, k, Receive(h, src)) < Measure(n, k)
  {
    var p := Pair(src, h);
    PopLightens(k.chan[p], 0);
    assert k.hosts.pc[h := k.hosts.pc[h]] == k.hosts.pc;
    PairAlone(n, k.hosts.pc, k.chan, k.inHand, p, Channel.Apply(k.chan[p], Channel.PopMsg(0)), [Returned(k.chan[p], 0)]);
  }

  lemma {:induction false} FinishStep(n: nat, k: Stack, h: nat, src: nat)
    requires WellFormedStack(n, k) && StackEnabled(n, k, Host(Finish(h, src)))
    requires k.inHand[Pair(src, h)] != []
    ensures WeightAfter(n, k, Finish(h, src)) < Measure(n, k)
  {
    assert k.hosts.pc[h := k.hosts.pc[h]] == k.hosts.pc;
    HandAlone(n, k.hosts.pc, k.chan, k.inHand, Pair(src, h));
  }

  lemma {:induction false} TakeStep(n: nat, k: Stack, h: nat, src: nat)
    requires WellFormedStack(n, k) && StackEnabled(n, k, Host(Take(h, src)))
    requires k.inHand[Pair(src, h)] == []
    ensures WeightAfter(n, k, Take(h, src)) < Measure(n, k)
  {
    var p, tag := Pair(src, h), k.hosts.phase[h];
    PopLightens(k.chan[p], tag);
    WeightMoves(n, k.hosts.pc, k.chan, k.inHand, h, Receiving(k.hosts.pc[h].received + 1),
                p, Channel.Apply(k.chan[p], Channel.PopMsg(tag)), []);
    assert k.inHand[p := []] == k.inHand;
  }

  /** A step of a host that touches no pair. */
  lemma {:induction false} HostAlone(n: nat, k: Stack, h: nat, pc': PC)
    requires WellFormedStack(n, k) && h < n
    ensures Weight(n, k.hosts.pc[h := pc'], k.chan, k.inHand) ==
            Measure(n, k) + HostWeight(n, pc') - HostWeight(n, k.hosts.pc[h])
  {
    HostMoves(n, k.hosts.pc, h, pc');
  }

  lemma {:induction false} LeaveStep(n: nat, k: Stack, h: nat)
    requires WellFormedStack(n, k) && StackEnabled(n, k, Host(Leave(h)))
    ensures WeightAfter(n, k, Leave(h)) < Measure(n, k)
  {
    HostAlone(n, k, h, Outside);
  }

  lemma {:induction false} SendToChanges(n: nat, k: Stack, h: nat)
    requires WellFormedStack(n, k) && StackEnabled(n, k, Host(SendNext(h)))
    requires k.hosts.pc[h].next < n && k.hosts.pc[h].next != h
    ensures var next, m := k.hosts.pc[h].next, Fragment(k.hosts.phase[h], FencePayload(h));
            && Channel.Legal(m) && InHandAfter(n, k, SendNext(h)) == k.inHand
            && Chans(n, k, SendNext(h)) == k.chan[Pair(h, next) := SendOn(k.chan[Pair(h, next)], m)]
  {
  }

  lemma {:induction false} SendToStep(n: nat, k: Stack, h: nat)
    requires WellFormedStack(n, k) && StackEnabled(n, k, Host(SendNext(h)))
    requires k.hosts.pc[h].next < n && k.hosts.pc[h].next != h
    ensures WeightAfter(n, k, SendNext(h)) < Measure(n, k)
  {
    var next := k.hosts.pc[h].next;
    SendToChanges(n, k, h);
    SendMoves(n, k.hosts.pc, k.chan, k.inHand, h, next, Pair(h, next), Fragment(k.hosts.phase[h], FencePayload(h)));
  }

  lemma {:induction false} SendSkipStep(n: nat, k: Stack, h: nat)
    requires WellFormedStack(n, k) && StackEnabled(n, k, Host(SendNext(h)))
    requires k.hosts.pc[h].next >= n || k.hosts.pc[h].next == h
    ensures WeightAfter(n, k, SendNext(h)) < Measure(n, k)
  {
    HostAlone(n, k, h, if k.hosts.pc[h].next >= n then Receiving(1) else Sending(k.hosts.pc[h].next + 1));
  }

  lemma {:induction false} HostStep(n: nat, k: Stack, x: Event)
    requires WellFormedStack(n, k) && StackEnabled(n, k, Host(x))
    requires k.inHand == k.hosts.inHand && !x.SendMsg? && !x.Enter?
    ensures WeightAfter(n, k, x) < Measure(n, k)
  {
    match x
    case Receive(h, src) => ReceiveStep(n, k, h, src);
    case Finish(h, src) => FinishStep(n, k, h, src);
    case Take(h, src) => TakeStep(n, k, h, src);
    case Leave(h) => LeaveStep(n, k, h);
    case SendNext(h) =>
      if k.hosts.pc[h].next < n && k.hosts.pc[h].next != h { SendToStep(n, k, h); } else { SendSkipStep(n, k, h); }
  }

  lemma {:induction false} NetStep(n: nat, k: Stack, p: Pair, c: Channel.Event)
    requires WellFormedStack(n, k) && StackEnabled(n, k, Net(p, c))
    ensures Weight(n, k.hosts.pc, k.chan[p := Channel.Apply(k.chan[p], c)], k.inHand) <=
            Measure(n, k) - if Channel.Moves(c) then 1 else 0
  {
    NetLightens(k.chan[p], c, k.inHand[p]);
    PairAlone(n, k.hosts.pc, k.chan, k.inHand, p, Channel.Apply(k.chan[p], c), k.inHand[p]);
    assert k.inHand[p := k.inHand[p]] == k.inHand;
  }

  /** The events while a fence is under way and nobody sends or enters anything new. */
  predicate Within(e: StackEvent) { e.Net? || Advances(e) }

  /** Every step of a fence under way takes one from the bound, and no other event adds to it. */
  lemma {:induction false} StepLightens(n: nat, k: Stack, e: StackEvent)
    requires StackInv(n, k) && StackEnabled(n, k, e) && Within(e)
    ensures WellFormedStack(n, StackApply(n, k, e))
    ensures Measure(n, StackApply(n, k, e)) <= Measure(n, k) - if Advances(e) then 1 else 0
  {
    StackKeepsInv(n, k, e);
    match e
    case Net(p, c) => NetStep(n, k, p, c);
    case Host(x) =>
      HostEventEnabled(n, k, x);
      PcOf(n, k.hosts, x);
      HostStep(n, k, x);
  }

  /** A run in which every event is enabled when its turn comes and belongs to the fence. */
  ghost predicate IsFenceRun(n: nat, k: Stack, events: seq<StackEvent>)
    requires StackInv(n, k)
  {
    events == [] ||
    (var before, e := events[..|events| - 1], events[|events| - 1];
     IsFenceRun(n, k, before) && StackEnabled(n, Run(n, k, before), e) && Within(e))
  }

  ghost function Advanced(events: seq<StackEvent>): (k: nat)
  {
    if events == [] then 0
    else Advanced(events[..|events| - 1]) + if Advances(events[|events| - 1]) then 1 else 0
  }

  lemma {:induction false} RunLightens(n: nat, k: Stack, events: seq<StackEvent>)
    requires StackInv(n, k) && IsFenceRun(n, k, events)
    ensures Measure(n, Run(n, k, events)) + Advanced(events) <= Measure(n, k)
  {
    if events != [] {
      var before := events[..|events| - 1];
      RunLightens(n, k, before);
      StepLightens(n, Run(n, k, before), events[|events| - 1]);
    }
  }

  lemma {:induction false} RunKeepsEntered(n: nat, k: Stack, events: seq<StackEvent>, g: nat, f: nat)
    requires StackInv(n, k) && IsFenceRun(n, k, events) && g < n && Entered(k.hosts, g, f)
    ensures Entered(Run(n, k, events).hosts, g, f)
  {
    if events != [] {
      var before, e := events[..|events| - 1], events[|events| - 1];
      RunKeepsEntered(n, k, before, g, f);
      if e.Host? {
        HostEventEnabled(n, Run(n, k, before), e.e);
        EnteredKept(n, Run(n, k, before).hosts, e.e, g, f);
      }
    }
  }

  /** Every fence comes to an end. From any reachable state in which all hosts have entered fence f,
      whatever order the hosts, their workers and MPI act in, the fence takes at most as many
      steps as the state's measure; and when none can be taken any more every host has left it. */
  lemma {:induction false} FenceCompletes(n: nat, k: Stack, history: seq<StackEvent>, events: seq<StackEvent>, f: nat)
    requires InitStack(n, k) && IsFenceRun(n, RunFrom(n, k, history), events)
    requires forall g: nat :: g < n ==> Entered(RunFrom(n, k, history).hosts, g, f)
    ensures Advanced(events) <= Measure(n, RunFrom(n, k, history))
    ensures var d := Run(n, RunFrom(n, k, history), events);
            (forall e :: Advances(e) ==> !StackEnabled(n, d, e)) ==>
            forall h: nat :: h < n ==> d.hosts.fences[h] > f
  {
    var start := RunFrom(n, k, history);
    var d := Run(n, start, events);
    RunLightens(n, start, events);
    MeasureNatural(n, d);
    forall g: nat | g < n ensures Entered(d.hosts, g, f) { RunKeepsEntered(n, start, events, g, f); }
    if h: nat :| h < n && d.hosts.fences[h] <= f {
      assert Entered(d.hosts, h, f);
      var e := InsideGoesOn(n, d, h);
    }
  }
}
