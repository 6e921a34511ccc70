/** The host fence on top of the whole network stack: hosts that send messages and run
    HostFence::wait, each pair of them connected by the byte-level channel of the buffered network.

    handleReceives is any number of Receive and Finish events, also none: it skips a source whose
    lock it still holds, so nothing here relies on it draining the queues. */
module FenceStack {
  import opened Bytes
  import opened RecvBuffer
  import Channel
  import opened HostFence
  import opened Wrappers

  /** The control state of the hosts, and the network. inHand and handled are what handlers were
      given: the bytes the receive buffers returned, message by message. */
  datatype Stack = Stack(
    hosts: State,
    chan: map<Pair, Channel.State>,
    inHand: map<Pair, seq<Fragment>>,
    handled: map<Pair, seq<Fragment>>)

  datatype StackEvent =
    | Host(e: Event)
    | Net(p: Pair, c: Channel.Event)   // senders' locks, flushers, workers and MPI

  /** Net events are those of the worker, of flush and of MPI; adding and popping is done by hosts. */
  predicate Internal(c: Channel.Event)
  {
    !c.Call? && !c.Add? && !c.PopMsg?
  }

  function SendOn(c: Channel.State, m: Fragment): (c': Channel.State)
    requires Channel.Legal(m)
  {
    Channel.Apply(Channel.Apply(c, Channel.Call), Channel.Add(m))
  }

  ghost predicate WellFormedStack(n: nat, k: Stack)
  {
    && WellFormed(n, k.hosts)
    && k.chan.Keys == k.inHand.Keys == k.handled.Keys == k.hosts.pipes.Keys
  }

  ghost predicate InitStack(n: nat, k: Stack)
  {
    && WellFormedStack(n, k) && Init(n, k.hosts)
    && (forall p :: p in k.chan ==> k.chan[p] == Channel.Start() && k.inHand[p] == k.handled[p] == [])
  }

  /** A host event needs the bytes it receives to have arrived, and sends legal messages only. */
  ghost predicate StackEnabled(n: nat, k: Stack, e: StackEvent)
    requires WellFormedStack(n, k)
  {
    match e
    case Net(p, c) => p in k.chan && Internal(c) && Channel.Enabled(k.chan[p], c)
    case Host(h) =>
      && Control(n, k.hosts, h)
      && (var r := Receives(k.hosts, h);
          r.Some? ==> Channel.Enabled(k.chan[r.value.0], Channel.PopMsg(r.value.1)))
      && (var m := Sends(n, k.hosts, h); m.Some? ==> Channel.Legal(m.value.1))
  }

  ghost function Chans(n: nat, k: Stack, h: Event): (chan: map<Pair, Channel.State>)
    requires WellFormedStack(n, k) && StackEnabled(n, k, Host(h))
  {
    var r, m := Receives(k.hosts, h), Sends(n, k.hosts, h);
    if r.Some? then k.chan[r.value.0 := Channel.Apply(k.chan[r.value.0], Channel.PopMsg(r.value.1))]
    else if m.Some? then k.chan[m.value.0 := SendOn(k.chan[m.value.0], m.value.1)]
    else k.chan
  }

  /** What the receive buffer of a pair returns for a tag. */
  function Returned(c: Channel.State, tag: nat): (m: Fragment)
    requires Channel.Enabled(c, Channel.PopMsg(tag))
  {
    Fragment(tag, ParseMsg(Channel.Arrived(c), tag).value)
  }

  ghost function InHandAfter(n: nat, k: Stack, h: Event): (hand: map<Pair, seq<Fragment>>)
    requires WellFormedStack(n, k) && StackEnabled(n, k, Host(h))
  {
    match h
    case Receive(d, src) => k.inHand[Pair(src, d) := [Returned(k.chan[Pair(src, d)], 0)]]
    case Finish(d, src) => k.inHand[Pair(src, d) := []]
    case _ => k.inHand
  }

  ghost function HandledAfter(n: nat, k: Stack, h: Event): (handled: map<Pair, seq<Fragment>>)
    requires WellFormedStack(n, k) && StackEnabled(n, k, Host(h))
  {
    match h
    case Finish(d, src) => k.handled[Pair(src, d) := k.handled[Pair(src, d)] + k.inHand[Pair(src, d)]]
    case _ => k.handled
  }

  /** The pipes of HostFence are the histories of the channels. */
  ghost predicate PairCoupled(c: Channel.State, q: Pipe)
  {
    Channel.Inv(c) && q == Pipe(c.sent, c.popped)
  }

  ghost predicate AllCoupled(chan: map<Pair, Channel.State>, pipes: map<Pair, Pipe>)
    requires chan.Keys == pipes.Keys
  {
    forall p {:trigger PairCoupled(chan[p], pipes[p])} :: p in chan ==> PairCoupled(chan[p], pipes[p])
  }

  ghost predicate Coupled(n: nat, k: Stack)
  {
    && WellFormedStack(n, k) && AllCoupled(k.chan, k.hosts.pipes)
    && k.inHand == k.hosts.inHand && k.handled == k.hosts.handled
  }

  ghost predicate StackInv(n: nat, k: Stack)
  {
    Coupled(n, k) && Inv(n, k.hosts)
  }

  /** The channel hands out only its head, byte for byte, so popping it is popping the pipe. */
  lemma {:induction false} ChannelIsPipe(c: Channel.State, q: Pipe, tag: nat)
    requires PairCoupled(c, q) && Channel.Enabled(c, Channel.PopMsg(tag))
    ensures q.popped < |q.sent| && q.sent[q.popped] == Returned(c, tag)
    ensures PairCoupled(Channel.Apply(c, Channel.PopMsg(tag)), Pipe(q.sent, q.popped + 1))
  {
    Channel.ParseHead(Channel.Pending(c), Channel.Arrived(c), Channel.UnderWay(c), tag);
    Channel.StepKeepsInv(c, Channel.PopMsg(tag));
  }

  lemma {:induction false} SendOnIsPush(c: Channel.State, q: Pipe, m: Fragment)
    requires PairCoupled(c, q) && Channel.Legal(m)
    ensures PairCoupled(SendOn(c, m), Pipe(q.sent + [m], q.popped))
  {
    Channel.StepKeepsInv(c, Channel.Call);
    Channel.StepKeepsInv(Channel.Apply(c, Channel.Call), Channel.Add(m));
  }

  lemma {:induction false} InternalKeepsPipe(c: Channel.State, q: Pipe, e: Channel.Event)
    requires PairCoupled(c, q) && Internal(e) && Channel.Enabled(c, e)
    ensures PairCoupled(Channel.Apply(c, e), q)
  {
    Channel.StepKeepsInv(c, e);
  }

  /** Refinement: what a host can do on the channels it can do on the pipes. */
  lemma {:induction false} HostEventEnabled(n: nat, k: Stack, h: Event)
    requires Coupled(n, k) && StackEnabled(n, k, Host(h))
    ensures Enabled(n, k.hosts, h)
  {
    var r := Receives(k.hosts, h);
    if r.Some? { ChannelIsPipe(k.chan[r.value.0], k.hosts.pipes[r.value.0], r.value.1); }
  }

  ghost function StackApply(n: nat, k: Stack, e: StackEvent): (k': Stack)
    requires Coupled(n, k) && StackEnabled(n, k, e)
  {
    match e
    case Net(p, c) => k.(chan := k.chan[p := Channel.Apply(k.chan[p], c)])
    case Host(h) =>
      HostEventEnabled(n, k, h);
      Stack(Apply(n, k.hosts, h), Chans(n, k, h), InHandAfter(n, k, h), HandledAfter(n, k, h))
  }

  lemma {:induction false} HostKeepsPair(n: nat, k: Stack, h: Event, p: Pair)
    requires WellFormedStack(n, k) && StackEnabled(n, k, Host(h)) && p in k.chan
    requires PairCoupled(k.chan[p], k.hosts.pipes[p])
    ensures PairCoupled(Chans(n, k, h)[p], PipeAfter(n, k.hosts, h, p))
  {
    var r, m := Receives(k.hosts, h), Sends(n, k.hosts, h);
    if r.Some? && p == r.value.0 {
      ChannelIsPipe(k.chan[p], k.hosts.pipes[p], r.value.1);
    } else if m.Some? && p == m.value.0 {
      SendOnIsPush(k.chan[p], k.hosts.pipes[p], m.value.1);
    }
  }

  lemma {:induction false} HostPairAfter(n: nat, k: Stack, h: Event, p: Pair)
    requires Coupled(n, k) && StackEnabled(n, k, Host(h)) && p in k.chan
    ensures var k' := StackApply(n, k, Host(h));
            p in k'.hosts.pipes && p in k'.chan && PairCoupled(k'.chan[p], k'.hosts.pipes[p])
  {
    HostEventEnabled(n, k, h);
    PipesOf(n, k.hosts, h, p);
    HostKeepsPair(n, k, h, p);
  }

  lemma {:induction false} ChansKeys(n: nat, k: Stack, h: Event)
    requires WellFormedStack(n, k) && StackEnabled(n, k, Host(h))
    ensures Chans(n, k, h).Keys == k.chan.Keys
  {
  }

  lemma {:induction false} PipesKeys(n: nat, s: State, e: Event)
    requires WellFormed(n, s) && Enabled(n, s, e)
    ensures Apply(n, s, e).pipes.Keys == s.pipes.Keys
  {
  }

  lemma {:induction false} ReturnedIsHead(c: Channel.State, q: Pipe, tag: nat)
    requires PairCoupled(c, q) && Channel.Enabled(c, Channel.PopMsg(tag))
    ensures q.popped < |q.sent| && q.sent[q.popped] == Returned(c, tag)
  {
    ChannelIsPipe(c, q, tag);
  }

  lemma {:induction false} ReceiveKeepsHandlers(n: nat, k: Stack, d: nat, src: nat)
    requires WellFormedStack(n, k) && StackEnabled(n, k, Host(Receive(d, src)))
    requires PairCoupled(k.chan[Pair(src, d)], k.hosts.pipes[Pair(src, d)])
    requires Enabled(n, k.hosts, Receive(d, src)) && k.inHand == k.hosts.inHand && k.handled == k.hosts.handled
    ensures InHandAfter(n, k, Receive(d, src)) == Apply(n, k.hosts, Receive(d, src)).inHand
    ensures HandledAfter(n, k, Receive(d, src)) == Apply(n, k.hosts, Receive(d, src)).handled
  {
    ReturnedIsHead(k.chan[Pair(src, d)], k.hosts.pipes[Pair(src, d)], 0);
  }

  lemma {:induction false} FinishKeepsHandlers(n: nat, k: Stack, d: nat, src: nat)
    requires WellFormedStack(n, k) && StackEnabled(n, k, Host(Finish(d, src)))
    requires Enabled(n, k.hosts, Finish(d, src)) && k.inHand == k.hosts.inHand && k.handled == k.hosts.handled
    ensures InHandAfter(n, k, Finish(d, src)) == Apply(n, k.hosts, Finish(d, src)).inHand
    ensures HandledAfter(n, k, Finish(d, src)) == Apply(n, k.hosts, Finish(d, src)).handled
  {
  }

  lemma {:induction false} OtherKeepsHandlers(n: nat, k: Stack, h: Event)
    requires WellFormedStack(n, k) && StackEnabled(n, k, Host(h)) && !h.Receive? && !h.Finish?
    requires Enabled(n, k.hosts, h) && k.inHand == k.hosts.inHand && k.handled == k.hosts.handled
    ensures InHandAfter(n, k, h) == Apply(n, k.hosts, h).inHand
    ensures HandledAfter(n, k, h) == Apply(n, k.hosts, h).handled
  {
  }

  /** The handlers of the stack are given what the handlers over the pipes are given. */
  lemma {:induction false} HostKeepsHandlers(n: nat, k: Stack, h: Event)
    requires Coupled(n, k) && StackEnabled(n, k, Host(h)) && Enabled(n, k.hosts, h)
    ensures InHandAfter(n, k, h) == Apply(n, k.hosts, h).inHand
    ensures HandledAfter(n, k, h) == Apply(n, k.hosts, h).handled
  {
    match h
    case Receive(d, src) => ReceiveKeepsHandlers(n, k, d, src);
    case Finish(d, src) => FinishKeepsHandlers(n, k, d, src);
    case _ => OtherKeepsHandlers(n, k, h);
  }

  lemma {:induction false} HostKeepsCoupling(n: nat, k: Stack, h: Event)
    requires Coupled(n, k) && StackEnabled(n, k, Host(h))
    ensures Coupled(n, StackApply(n, k, Host(h)))
  {
    HostEventEnabled(n, k, h);
    ChansKeys(n, k, h);
    PipesKeys(n, k.hosts, h);
    HostKeepsHandlers(n, k, h);
    var k' := StackApply(n, k, Host(h));
    forall p | p in k'.chan ensures PairCoupled(k'.chan[p], k'.hosts.pipes[p]) {
      HostPairAfter(n, k, h, p);
    }
  }

  lemma {:induction false} ReplacedIsCoupled(chan: map<Pair, Channel.State>, pipes: map<Pair, Pipe>,
                                             p: Pair, c: Channel.State, r: Pair)
    requires chan.Keys == pipes.Keys && AllCoupled(chan, pipes)
    requires p in chan && PairCoupled(c, pipes[p]) && r in chan
    ensures PairCoupled(chan[p := c][r], pipes[r])
  {
  }

  lemma {:induction false} ReplaceKeepsCoupling(chan: map<Pair, Channel.State>, pipes: map<Pair, Pipe>,
                                                p: Pair, c: Channel.State)
    requires chan.Keys == pipes.Keys && AllCoupled(chan, pipes)
    requires p in chan && PairCoupled(c, pipes[p])
    ensures chan[p := c].Keys == pipes.Keys && AllCoupled(chan[p := c], pipes)
  {
    assert chan[p := c].Keys == chan.Keys;
    forall r | r in chan[p := c] ensures PairCoupled(chan[p := c][r], pipes[r]) {
      ReplacedIsCoupled(chan, pipes, p, c, r);
    }
  }

  lemma {:induction false} NetKeepsCoupling(n: nat, k: Stack, p: Pair, c: Channel.Event)
    requires Coupled(n, k) && StackEnabled(n, k, Net(p, c))
    ensures Coupled(n, StackApply(n, k, Net(p, c)))
  {
    InternalKeepsPipe(k.chan[p], k.hosts.pipes[p], c);
    ReplaceKeepsCoupling(k.chan, k.hosts.pipes, p, Channel.Apply(k.chan[p], c));
  }

  lemma {:induction false} StackKeepsInv(n: nat, k: Stack, e: StackEvent)
    requires StackInv(n, k) && StackEnabled(n, k, e)
    ensures StackInv(n, StackApply(n, k, e))
  {
    match e
    case Net(p, c) => NetKeepsCoupling(n, k, p, c);
    case Host(h) =>
      HostKeepsCoupling(n, k, h);
      HostEventEnabled(n, k, h);
      StepKeepsInv(n, k.hosts, h);
  }

  lemma {:induction false} InitStackInv(n: nat, k: Stack)
    requires InitStack(n, k)
    ensures StackInv(n, k)
  {
    Channel.StartInv();
    InitInv(n, k.hosts);
  }

  /** The state after a run of the whole system; events that are not enabled do nothing. */
  ghost function Run(n: nat, k: Stack, events: seq<StackEvent>): (k': Stack)
    requires StackInv(n, k)
    ensures StackInv(n, k')
  {
    if events == [] then k else
    var d, e := Run(n, k, events[..|events| - 1]), events[|events| - 1];
    if StackEnabled(n, d, e) then StackKeepsInv(n, d, e); StackApply(n, d, e) else d
  }

  ghost function RunFrom(n: nat, k: Stack, events: seq<StackEvent>): (k': Stack)
    requires InitStack(n, k)
    ensures StackInv(n, k')
  {
    InitStackInv(n, k);
    Run(n, k, events)
  }

  /** The state after one more event. */
  ghost function After(n: nat, d: Stack, e: StackEvent): (d': Stack)
    requires StackInv(n, d)
    ensures StackInv(n, d')
  {
    if StackEnabled(n, d, e) then StackKeepsInv(n, d, e); StackApply(n, d, e) else d
  }

  lemma {:induction false} RunSnoc(n: nat, k: Stack, events: seq<StackEvent>, e: StackEvent)
    requires InitStack(n, k)
    ensures RunFrom(n, k, events + [e]) == After(n, RunFrom(n, k, events), e)
  {
    assert (events + [e])[..|events|] == events;
  }

  // ----- what was given to sendMsg

  /** The message an event gives to sendMsg of src for dst, if it does and the message is legal. */
  function GivenBy(n: nat, e: StackEvent, src: nat, dst: nat): (q: seq<Fragment>)
  {
    match e
    case Host(SendMsg(h, d, payload)) =>
      if h == src < n && d == dst < n && Channel.Legal(Fragment(0, payload)) then [Fragment(0, payload)] else []
    case _ => []
  }

  /** All of them, in order, read off the events alone. */
  function Given(n: nat, events: seq<StackEvent>, src: nat, dst: nat): (q: seq<Fragment>)
  {
    if events == [] then []
    else Given(n, events[..|events| - 1], src, dst) + GivenBy(n, events[|events| - 1], src, dst)
  }

  /** The messages for handlers that a host event sends. */
  lemma {:induction false} SendsGiven(n: nat, s: State, h: Event, p: Pair)
    requires WellFormed(n, s) && Control(n, s, h) && p in s.pipes
    requires h.SendNext? ==> s.phase[h.h] != 0
    requires h.SendMsg? ==> Channel.Legal(Fragment(0, h.payload))
    ensures UserMessages(PipeAfter(n, s, h, p).sent) == UserMessages(s.pipes[p].sent) + GivenBy(n, Host(h), p.src, p.dst)
  {
    var m, q := Sends(n, s, h), s.pipes[p].sent;
    if m.Some? && p == m.value.0 { CountsSnoc(q, m.value.1); }
    assert UserMessages(q) + [] == UserMessages(q);
  }

  lemma {:induction false} HostSends(n: nat, k: Stack, h: Event, p: Pair)
    requires Coupled(n, k) && StackEnabled(n, k, Host(h)) && p in k.chan && (h.SendNext? ==> k.hosts.phase[h.h] != 0)
    ensures p in StackApply(n, k, Host(h)).chan
    ensures UserMessages(StackApply(n, k, Host(h)).chan[p].sent) ==
            UserMessages(k.chan[p].sent) + GivenBy(n, Host(h), p.src, p.dst)
  {
    assert PairCoupled(k.chan[p], k.hosts.pipes[p]);
    HostKeepsPair(n, k, h, p);
    ChansKeys(n, k, h);
    SendsGiven(n, k.hosts, h, p);
  }

  lemma {:induction false} InternalSendsNothing(c: Channel.State, e: Channel.Event)
    requires Internal(e) && Channel.Enabled(c, e)
    ensures Channel.Apply(c, e).sent == c.sent
  {
  }

  lemma {:induction false} NetSends(n: nat, k: Stack, r: Pair, c: Channel.Event, p: Pair)
    requires WellFormedStack(n, k) && StackEnabled(n, k, Net(r, c)) && p in k.chan
    ensures k.chan[r := Channel.Apply(k.chan[r], c)][p].sent == k.chan[p].sent
  {
    InternalSendsNothing(k.chan[r], c);
  }

  lemma {:induction false} NetSentAfter(n: nat, k: Stack, e: StackEvent, p: Pair)
    requires StackInv(n, k) && p in k.chan && e.Net?
    ensures p in After(n, k, e).chan && After(n, k, e).chan[p].sent == k.chan[p].sent
  {
    if StackEnabled(n, k, e) { NetSends(n, k, e.p, e.c, p); }
  }

  lemma {:induction false} HostSentAfter(n: nat, k: Stack, e: StackEvent, p: Pair)
    requires StackInv(n, k) && p in k.chan && e.Host?
    ensures p in After(n, k, e).chan
    ensures UserMessages(After(n, k, e).chan[p].sent) == UserMessages(k.chan[p].sent) + GivenBy(n, e, p.src, p.dst)
  {
    if StackEnabled(n, k, e) {
      if e.e.SendNext? { assert HostInv(n, k.hosts, e.e.h); }
      HostSends(n, k, e.e, p);
    } else {
      RefusedGivesNothing(n, k, e, p.src, p.dst);
      assert UserMessages(k.chan[p].sent) + [] == UserMessages(k.chan[p].sent);
    }
  }

  /** A legal sendMsg is accepted at any time. */
  lemma {:induction false} RefusedGivesNothing(n: nat, k: Stack, e: StackEvent, src: nat, dst: nat)
    requires WellFormedStack(n, k) && !StackEnabled(n, k, e)
    ensures GivenBy(n, e, src, dst) == []
  {
  }

  lemma {:induction false} NetGivesNothing(n: nat, e: StackEvent, src: nat, dst: nat, q: seq<Fragment>)
    requires e.Net?
    ensures q + GivenBy(n, e, src, dst) == q
  {
  }

  lemma {:induction false} SentAfter(n: nat, k: Stack, e: StackEvent, p: Pair, q: seq<Fragment>)
    requires StackInv(n, k) && p in k.chan && UserMessages(k.chan[p].sent) == q
    ensures p in After(n, k, e).chan
    ensures UserMessages(After(n, k, e).chan[p].sent) == q + GivenBy(n, e, p.src, p.dst)
  {
    if e.Net? {
      NetSentAfter(n, k, e, p);
      NetGivesNothing(n, e, p.src, p.dst, q);
    } else {
      HostSentAfter(n, k, e, p);
    }
  }

  ghost function Sents(n: nat, k: Stack, events: seq<StackEvent>, p: Pair): (us: seq<seq<Fragment>>)
    requires InitStack(n, k) && p.src < n && p.dst < n
  {
    seq(|events| + 1, i requires 0 <= i <= |events| => UserMessages(RunFrom(n, k, events[..i]).chan[p].sent))
  }

  lemma {:induction false} SentsGrow(n: nat, k: Stack, events: seq<StackEvent>, p: Pair, j: nat)
    requires InitStack(n, k) && p.src < n && p.dst < n && j < |events|
    ensures Sents(n, k, events, p)[j + 1] == Sents(n, k, events, p)[j] + GivenBy(n, events[j], p.src, p.dst)
  {
    assert events[..j + 1] == events[..j] + [events[j]];
    RunSnoc(n, k, events[..j], events[j]);
    SentAfter(n, RunFrom(n, k, events[..j]), events[j], p, Sents(n, k, events, p)[j]);
  }

  lemma {:induction false} SentsStart(n: nat, k: Stack, events: seq<StackEvent>, p: Pair)
    requires InitStack(n, k) && p.src < n && p.dst < n
    ensures Sents(n, k, events, p)[0] == []
    ensures Sents(n, k, events, p)[|events|] == UserMessages(RunFrom(n, k, events).chan[p].sent)
  {
    assert events[..0] == [] && events[..|events|] == events;
  }

  lemma {:induction false} GivenAdds(n: nat, events: seq<StackEvent>, src: nat, dst: nat, us: seq<seq<Fragment>>, i: nat)
    requires i <= |events| && |us| == |events| + 1 && us[0] == []
    requires forall j: nat :: j < |events| ==> us[j + 1] == us[j] + GivenBy(n, events[j], src, dst)
    ensures us[i] == Given(n, events[..i], src, dst)
  {
    if i > 0 {
      GivenAdds(n, events, src, dst, us, i - 1);
      assert us[i - 1 + 1] == us[i - 1] + GivenBy(n, events[i - 1], src, dst);
      assert events[..i][..i - 1] == events[..i - 1];
    }
  }

  /** sendMsg loses nothing and adds nothing: in every run, the messages for handlers that the
      channel of a pair was given are those its source gave to sendMsg, in that order. */
  lemma {:induction false} GivenIsSent(n: nat, k: Stack, events: seq<StackEvent>, src: nat, dst: nat)
    requires InitStack(n, k) && src < n && dst < n
    ensures UserMessages(RunFrom(n, k, events).chan[Pair(src, dst)].sent) == Given(n, events, src, dst)
  {
    var us := Sents(n, k, events, Pair(src, dst));
    SentsStart(n, k, events, Pair(src, dst));
    forall j: nat | j < |events| ensures us[j + 1] == us[j] + GivenBy(n, events[j], src, dst) {
      SentsGrow(n, k, events, Pair(src, dst), j);
    }
    GivenAdds(n, events, src, dst, us, |events|);
    assert events[..|events|] == events;
  }

  lemma {:induction false} SameSent(n: nat, k: Stack, p: Pair)
    requires StackInv(n, k) && p in k.chan
    ensures k.chan[p].sent == k.hosts.pipes[p].sent && PipeInv(n, k.hosts, p)
    ensures k.handled[p] == k.hosts.handled[p] && k.inHand[p] == k.hosts.inHand[p]
  {
    assert PairCoupled(k.chan[p], k.hosts.pipes[p]);
  }

  /** Handlers are given nothing else: what has been handled on dst from src, with what is in hand,
      are the first of those messages, in order, once each. */
  lemma {:induction false} HandledWasGiven(n: nat, k: Stack, events: seq<StackEvent>, src: nat, dst: nat)
    requires InitStack(n, k) && src < n && dst < n
    ensures var d, p := RunFrom(n, k, events), Pair(src, dst);
            d.handled[p] + d.inHand[p] <= Given(n, events, src, dst)
  {
    var d, p := RunFrom(n, k, events), Pair(src, dst);
    GivenIsSent(n, k, events, src, dst);
    SameSent(n, d, p);
    HandledIsFirst(n, d.hosts, p);
  }

  // ----- the fence

  /** Event i is the call of wait by which src enters its fence f. */
  ghost predicate EntersAt(n: nat, k: Stack, events: seq<StackEvent>, i: nat, src: nat, f: nat)
    requires InitStack(n, k) && src < n
  {
    && i < |events| && events[i] == Host(Enter(src))
    && RunFrom(n, k, events[..i]).hosts.pc[src].Outside? && RunFrom(n, k, events[..i]).hosts.fences[src] == f
  }

  /** Whoever has entered a fence stays so, and the mark of the entry stays as it was set. */
  lemma {:induction false} EntryStays(n: nat, d: Stack, e: StackEvent, m: Mark)
    requires StackInv(n, d) && m.src < n && m.dst < n && Entered(d.hosts, m.src, m.fence)
    ensures Entered(After(n, d, e).hosts, m.src, m.fence)
    ensures m in d.hosts.marks && m in After(n, d, e).hosts.marks && After(n, d, e).hosts.marks[m] == d.hosts.marks[m]
  {
    assert MarkInv(n, d.hosts, m);
    if e.Host? && StackEnabled(n, d, e) {
      HostEventEnabled(n, d, e.e);
      MarkStays(n, d.hosts, e.e, m);
    }
  }

  /** Only the call of wait enters a fence, and it marks what the channel had been given by then. */
  lemma {:induction false} OnlyWaitEnters(n: nat, d: Stack, e: StackEvent, m: Mark)
    requires StackInv(n, d) && m.src < n && m.dst < n && !Entered(d.hosts, m.src, m.fence)
    ensures Entered(After(n, d, e).hosts, m.src, m.fence) ==>
              && e == Host(Enter(m.src)) && d.hosts.pc[m.src].Outside? && d.hosts.fences[m.src] == m.fence
              && m in After(n, d, e).hosts.marks
              && After(n, d, e).hosts.marks[m] == |d.chan[Pair(m.src, m.dst)].sent|
  {
    if e.Host? && StackEnabled(n, d, e) {
      assert PairCoupled(d.chan[Pair(m.src, m.dst)], d.hosts.pipes[Pair(m.src, m.dst)]);
      HostEventEnabled(n, d, e.e);
      if e.e.Enter? { EnterSetsMark(n, d.hosts, e.e.h, m); } else { EnteredKept(n, d.hosts, e.e, m.src, m.fence); }
    }
  }

  lemma {:induction false} SentGrows(n: nat, d: Stack, e: StackEvent, p: Pair)
    requires StackInv(n, d) && p in d.chan
    ensures p in After(n, d, e).chan && d.chan[p].sent <= After(n, d, e).chan[p].sent
  {
    assert PairCoupled(d.chan[p], d.hosts.pipes[p]);
    if StackEnabled(n, d, e) {
      match e
      case Net(_, _) => NetSentAfter(n, d, e, p);
      case Host(h) =>
        HostKeepsPair(n, d, h, p);
        ChansKeys(n, d, h);
    }
  }

  /** A host outside wait may enter at any time. */
  lemma {:induction false} EnterEnters(n: nat, d: Stack, src: nat)
    requires StackInv(n, d) && src < n && d.hosts.pc[src].Outside?
    ensures Entered(After(n, d, Host(Enter(src))).hosts, src, d.hosts.fences[src])
  {
    HostEventEnabled(n, d, Enter(src));
  }

  /** What the proof follows along a run: whether a host has entered a fence, its mark, and what its
      channel to another host has been given. */
  datatype View = View(entered: bool, mark: nat, sent: seq<Fragment>)

  ghost function ViewOf(n: nat, d: Stack, m: Mark): (v: View)
    requires WellFormedStack(n, d) && m.src < n && m.dst < n
  {
    View(Entered(d.hosts, m.src, m.fence), if m in d.hosts.marks then d.hosts.marks[m] else 0,
         d.chan[Pair(m.src, m.dst)].sent)
  }

  /** The next event is the call of wait that enters the fence. */
  ghost predicate Opens(n: nat, d: Stack, e: StackEvent, src: nat, f: nat)
    requires WellFormedStack(n, d) && src < n
  {
    e == Host(Enter(src)) && d.hosts.pc[src].Outside? && d.hosts.fences[src] == f
  }

  ghost predicate Moved(v: View, v': View, opens: bool)
  {
    && v.sent <= v'.sent && (opens ==> !v.entered && v'.entered)
    && (v.entered ==> v'.entered && v'.mark == v.mark)
    && (!v.entered && v'.entered ==> opens && v'.mark == |v.sent|)
  }

  lemma {:induction false} ViewMoves(n: nat, d: Stack, e: StackEvent, m: Mark)
    requires StackInv(n, d) && m.src < n && m.dst < n
    ensures Moved(ViewOf(n, d, m), ViewOf(n, After(n, d, e), m), Opens(n, d, e, m.src, m.fence))
  {
    SentGrows(n, d, e, Pair(m.src, m.dst));
    if Entered(d.hosts, m.src, m.fence) { EntryStays(n, d, e, m); } else { OnlyWaitEnters(n, d, e, m); }
    if Opens(n, d, e, m.src, m.fence) { EnterEnters(n, d, m.src); }
  }

  /** A fence that was entered was opened at some time, and the mark is what had been given by then. */
  lemma {:induction false} OpenedOnce(vs: seq<View>, opens: seq<bool>, l: nat) returns (i: nat)
    requires Followed(vs, opens) && l <= |opens| && vs[l].entered
    ensures i < l && opens[i] && vs[l].mark == |vs[i].sent| && vs[i].sent <= vs[l].sent
  {
    assert Moved(vs[l - 1], vs[l - 1 + 1], opens[l - 1]);
    i := l - 1;
    if vs[l - 1].entered { i := OpenedOnce(vs, opens, l - 1); }
  }

  lemma {:induction false} NotBefore(vs: seq<View>, opens: seq<bool>, j: nat, l: nat)
    requires Followed(vs, opens) && j < l <= |opens| && opens[j]
    ensures vs[l].entered
  {
    assert Moved(vs[l - 1], vs[l - 1 + 1], opens[l - 1]);
    if j < l - 1 { NotBefore(vs, opens, j, l - 1); }
  }

  ghost function Views(n: nat, k: Stack, events: seq<StackEvent>, m: Mark): (vs: seq<View>)
    requires InitStack(n, k) && m.src < n && m.dst < n
  {
    seq(|events| + 1, i requires 0 <= i <= |events| => ViewOf(n, RunFrom(n, k, events[..i]), m))
  }

  ghost function Openings(n: nat, k: Stack, events: seq<StackEvent>, src: nat, f: nat): (os: seq<bool>)
    requires InitStack(n, k) && src < n
  {
    seq(|events|, i requires 0 <= i < |events| => EntersAt(n, k, events, i, src, f))
  }

  lemma {:induction false} ViewsMove(n: nat, k: Stack, events: seq<StackEvent>, m: Mark, j: nat)
    requires InitStack(n, k) && m.src < n && m.dst < n && j < |events|
    ensures Moved(Views(n, k, events, m)[j], Views(n, k, events, m)[j + 1], Openings(n, k, events, m.src, m.fence)[j])
  {
    assert events[..j + 1] == events[..j] + [events[j]];
    RunSnoc(n, k, events[..j], events[j]);
    ViewMoves(n, RunFrom(n, k, events[..j]), events[j], m);
  }

  lemma {:induction false} NothingEntered(n: nat, k: Stack, m: Mark)
    requires InitStack(n, k) && m.src < n && m.dst < n
    ensures !ViewOf(n, k, m).entered
  {
  }

  /** The two sequences of a run, with what holds along them. */
  ghost predicate Followed(vs: seq<View>, os: seq<bool>)
  {
    |vs| == |os| + 1 && !vs[0].entered && forall j: nat :: j < |os| ==> Moved(vs[j], vs[j + 1], os[j])
  }

  lemma {:induction false} RunIsFollowed(n: nat, k: Stack, events: seq<StackEvent>, m: Mark)
    requires InitStack(n, k) && m.src < n && m.dst < n
    ensures Followed(Views(n, k, events, m), Openings(n, k, events, m.src, m.fence))
  {
    var vs, os := Views(n, k, events, m), Openings(n, k, events, m.src, m.fence);
    assert events[..0] == [];
    NothingEntered(n, k, m);
    forall j: nat | j < |os| ensures Moved(vs[j], vs[j + 1], os[j]) { ViewsMove(n, k, events, m, j); }
  }

  lemma {:induction false} PromiseAtMark(n: nat, d: Stack, h: nat, src: nat, f: nat)
    requires StackInv(n, d) && h < n && src < n && src != h && d.hosts.fences[h] > f
    ensures var v := ViewOf(n, d, Mark(src, h, f));
            v.entered && v.mark <= |v.sent| && UserMessages(v.sent[..v.mark]) <= d.handled[Pair(src, h)]
  {
    FencePromise(n, d.hosts, h, src, f);
    assert PairCoupled(d.chan[Pair(src, h)], d.hosts.pipes[Pair(src, h)]);
  }

  lemma {:induction false} LastView(n: nat, k: Stack, events: seq<StackEvent>, m: Mark)
    requires InitStack(n, k) && m.src < n && m.dst < n
    ensures Views(n, k, events, m)[|events|] == ViewOf(n, RunFrom(n, k, events), m)
  {
    assert events[..|events|] == events;
  }

  lemma {:induction false} GivenAtView(n: nat, k: Stack, events: seq<StackEvent>, m: Mark, i: nat)
    requires InitStack(n, k) && m.src < n && m.dst < n && i <= |events|
    ensures UserMessages(Views(n, k, events, m)[i].sent) == Given(n, events[..i], m.src, m.dst)
  {
    GivenIsSent(n, k, events[..i], m.src, m.dst);
  }

  /** A host enters each fence by one call of wait. */
  lemma {:induction false} EntersOnce(n: nat, k: Stack, events: seq<StackEvent>, i: nat, j: nat, src: nat, f: nat)
    requires InitStack(n, k) && src < n && EntersAt(n, k, events, i, src, f) && EntersAt(n, k, events, j, src, f)
    ensures i == j
  {
    var os := Openings(n, k, events, src, f);
    RunIsFollowed(n, k, events, Mark(src, src, f));
    assert os[i] && os[j];
    OpensOnce(Views(n, k, events, Mark(src, src, f)), os, i, j);
  }

  lemma {:induction false} OpensOnce(vs: seq<View>, os: seq<bool>, i: nat, j: nat)
    requires Followed(vs, os) && i < |os| && j < |os| && os[i] && os[j]
    ensures i == j
  {
    assert Moved(vs[i], vs[i + 1], os[i]) && Moved(vs[j], vs[j + 1], os[j]);
    if i < j { NotBefore(vs, os, i, j); } else if j < i { NotBefore(vs, os, j, i); }
  }

  /** The fence across the whole stack: in every state of every run, if host h has returned from
      its fence number f then every other host has entered that fence, by the call of wait at i,
      and every message it had given to sendMsg for h before that call has come out of the receive
      buffer of h with its bytes and has had its handler run to the end, in the order given. */
  lemma {:induction false} FenceAcrossStack(n: nat, k: Stack, events: seq<StackEvent>, h: nat, src: nat, f: nat)
    returns (i: nat)
    requires InitStack(n, k) && h < n && src < n && src != h
    requires RunFrom(n, k, events).hosts.fences[h] > f
    ensures EntersAt(n, k, events, i, src, f)
    ensures Given(n, events[..i], src, h) <= RunFrom(n, k, events).handled[Pair(src, h)]
  {
    var m := Mark(src, h, f);
    var vs, os := Views(n, k, events, m), Openings(n, k, events, src, f);
    PromiseAtMark(n, RunFrom(n, k, events), h, src, f);
    LastView(n, k, events, m);
    RunIsFollowed(n, k, events, m);
    i := OpenedOnce(vs, os, |events|);
    GivenAtView(n, k, events, m, i);
    PrefixGiven(vs[i], vs[|events|]);
  }

  lemma {:induction false} PrefixGiven(u: View, v: View)
    requires v.mark == |u.sent| && u.sent <= v.sent
    ensures v.sent[..v.mark] == u.sent
  {
  }

  /** Two hosts are never more than one fence apart, in any run of the stack. */
  lemma {:induction false} HostsStayTogether(n: nat, k: Stack, events: seq<StackEvent>, h: nat, g: nat)
    requires InitStack(n, k) && h < n && g < n
    ensures RunFrom(n, k, events).hosts.fences[h] <= RunFrom(n, k, events).hosts.fences[g] + 1
  {
    OneFenceApart(n, RunFrom(n, k, events).hosts, h, g);
  }
}
