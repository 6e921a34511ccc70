/** One ordered pair of hosts through the buffered network: the send buffer and its worker, the
    MPI layer, and the receive buffer.

    One Event is one atomic access or one locked region. Senders, flushers, the worker, MPI and
    the receiver interleave freely: a run is an arbitrary sequence of events, of which those that
    are not enabled do nothing. MPI is taken to deliver the frames of one pair in order. */
module Channel {
  import opened Arith
  import opened Bytes
  import opened RecvBuffer
  import opened Wrappers

  const INT_MAX: nat := 0x7fff_ffff

  type Message = Fragment

  /** What callers may send: a message has bytes, and it fits an MPI frame with its length. */
  predicate Legal(m: Message)
  {
    0 < |m.data| && |m.data| + 4 <= INT_MAX
  }

  // ----- frames

  function Encode(m: Message): (s: seq<byte>)
    ensures |s| == |m.data| + 4
  {
    Le(|m.data|, 4) + m.data
  }

  function EncodeAll(q: seq<Message>): (s: seq<byte>)
    ensures |s| == DataSize(q) + 4 * |q|
  {
    if q == [] then [] else Encode(q[0]) + EncodeAll(q[1..])
  }

  function DataSize(q: seq<Message>): (n: nat)
  {
    if q == [] then 0 else |q[0].data| + DataSize(q[1..])
  }

  /** The tagged bytes a list of messages becomes. */
  function EncodeStream(q: seq<Message>): (s: seq<TaggedByte>)
  {
    if q == [] then [] else Tagged(q[0].tag, Encode(q[0])) + EncodeStream(q[1..])
  }

  /** How many messages the first pass of assemble counts, after total bytes. */
  function CountFrom(q: seq<Message>, tag: nat, total: nat): (n: nat)
    ensures n <= |q|
    ensures forall k :: 0 <= k < n ==> q[k].tag == tag
  {
    if q == [] || q[0].tag != tag || |q[0].data| + 4 + total > INT_MAX then 0
    else 1 + CountFrom(q[1..], tag, total + |q[0].data| + 4)
  }

  /** The first pass takes the longest prefix of one tag whose frame stays within the int limit. */
  lemma {:induction false} CountIsLongest(q: seq<Message>, tag: nat, total: nat)
    requires total <= INT_MAX
    ensures var n := CountFrom(q, tag, total);
            && total + |EncodeAll(q[..n])| <= INT_MAX
            && (n < |q| ==> q[n].tag != tag || total + |EncodeAll(q[..n + 1])| > INT_MAX)
    decreases |q|
  {
    var n := CountFrom(q, tag, total);
    if n > 0 {
      CountIsLongest(q[1..], tag, total + |q[0].data| + 4);
      assert q[..n][1..] == q[1..][..n - 1];
      if n < |q| { assert q[..n + 1][1..] == q[1..][..n]; }
    } else if q != [] {
      assert q[..1] == [q[0]];
    }
  }

  /** The first pass of assemble, as the loop of the source. */
  method CountPass(messages: seq<Message>) returns (tag: nat, len: nat, num: nat)
    requires messages != []
    ensures tag == messages[0].tag
    ensures var n := CountFrom(messages, tag, 0); len == DataSize(messages[..n]) && num == 4 * n
  {
    tag, len, num := messages[0].tag, 0, 0;
    var i := 0;
    assert messages[0..] == messages;
    while i < |messages| && messages[i].tag == tag
      invariant 0 <= i <= |messages| && num == 4 * i && len == DataSize(messages[..i])
      invariant CountFrom(messages, tag, 0) == i + CountFrom(messages[i..], tag, len + num)
    {
      if |messages[i].data| + 4 + len + num > INT_MAX { break; }
      DataSizeSnoc(messages, i);
      CountOneMore(messages, i, tag, len + num);
      len := len + |messages[i].data|;
      num := num + 4;
      i := i + 1;
    }
  }

  lemma {:induction false} CountOneMore(q: seq<Message>, i: nat, tag: nat, total: nat)
    requires i < |q| && q[i].tag == tag && |q[i].data| + 4 + total <= INT_MAX
    ensures CountFrom(q[i..], tag, total) == 1 + CountFrom(q[i + 1..], tag, total + |q[i].data| + 4)
  {
    assert q[i..][1..] == q[i + 1..];
  }

  lemma {:induction false} DataSizeConcat(a: seq<Message>, b: seq<Message>)
    ensures DataSize(a + b) == DataSize(a) + DataSize(b)
  {
    if a == [] { assert a + b == b; } else {
      DataSizeConcat(a[1..], b);
      assert (a + b)[1..] == a[1..] + b;
    }
  }

  lemma {:induction false} DataSizeSnoc(q: seq<Message>, n: nat)
    requires n < |q|
    ensures DataSize(q[..n + 1]) == DataSize(q[..n]) + |q[n].data|
  {
    assert q[..n + 1] == q[..n] + [q[n]];
    DataSizeConcat(q[..n], [q[n]]);
  }

  lemma {:induction false} EncodeStreamConcat(a: seq<Message>, b: seq<Message>)
    ensures EncodeStream(a + b) == EncodeStream(a) + EncodeStream(b)
  {
    if a == [] { assert a + b == b; } else {
      assert (a + b)[1..] == a[1..] + b;
      EncodeStreamConcat(a[1..], b);
      ConcatAssoc(Tagged(a[0].tag, Encode(a[0])), EncodeStream(a[1..]), EncodeStream(b));
    }
  }

  lemma {:induction false} DataSizePositive(q: seq<Message>)
    requires q != [] && forall k :: 0 <= k < |q| ==> Legal(q[k])
    ensures DataSize(q) > 0
  {
    assert Legal(q[0]);
  }

  // ----- the state of the pair

  /** The worker's locals in assemble. todo (messages counted and still queued) and counted (the
      prefix counted by the first pass) are history: no step reads them. */
  datatype Job = Job(tag: nat, len: nat, num: nat, vec: seq<byte>, todo: nat, counted: seq<Message>)

  /** Where the worker is: outside assemble; about to copy the front message; about to test
      urgent; about to decrement it; about to pop; past the last pop and its decrement of
      inflightSends but before the increment for the frame; holding the finished frame. */
  datatype Worker =
    | Idle
    | Copying(job: Job)
    | Testing(job: Job)
    | Decrementing(job: Job)
    | Popping(job: Job)
    | Finishing(job: Job)
    | Holding(frame: Fragment)

  /** marking is the number of flushers between the test of markUrgent and its locked assignment.
      inflightSends and inflightRecvs are this pair's share of the two counters of a host. sent,
      popped and flagged are history: every message added so far, how many of them the receiver
      has popped, and how many queued messages the last markUrgent covered. */
  datatype State = State(
    callers: nat,
    marking: nat,
    queue: seq<Message>,
    numBytes: int,
    urgent: int,
    worker: Worker,
    sending: nat,
    net: seq<Fragment>,
    probed: seq<Fragment>,
    done: seq<Fragment>,
    data: seq<Fragment>,
    frontOffset: nat,
    inflightSends: int,
    inflightRecvs: int,
    sent: seq<Message>,
    popped: nat,
    flagged: nat)

  function Start(): (c: State)
  {
    State(0, 0, [], 0, 0, Idle, 0, [], [], [], [], 0, 0, 0, [], 0, 0)
  }

  datatype Event =
    | Call                 // sendTagged: ++inflightSends
    | Add(m: Message)      // sendBuffer::add, under the lock
    | TestBytes            // markUrgent: if (numBytes), without the lock
    | MarkUrgent           // the locked assignment of markUrgent
    | Count                // assemble: the first pass, under the lock
    | Copy                 // append length and data of the front message
    | TestUrgent           // if (urgent)
    | DecUrgent            // --urgent
    | PopFront             // lock, pop_front, --inflightSends, loop test
    | Finish               // ++inflightSends, numBytes -= len, unlock
    | Enqueue              // netio->enqueue: MPI_Isend
    | SendDone             // sendQueueTy::complete on the front request
    | Probe                // recvQueueTy::probe, a new frame
    | RecvDone             // recvQueueTy::probe, the front request is complete
    | Deliver              // dequeue and recvBuffer::add
    | PopMsg(tag: nat)     // recvBuffer::popMsg

  /** The part of ready that does not look at the clock or the size threshold. */
  predicate ReadyByUrgency(c: State)
  {
    c.numBytes != 0 && c.urgent != 0
  }

  predicate Enabled(c: State, e: Event)
  {
    match e
    case Call => true
    case Add(m) => c.callers > 0 && Legal(m)
    case TestBytes => true
    case MarkUrgent => c.marking > 0
    case Count => c.worker.Idle? && c.numBytes != 0 && c.queue != []
    case Copy => c.worker.Copying? && c.queue != []
    case TestUrgent => c.worker.Testing?
    case DecUrgent => c.worker.Decrementing?
    case PopFront => c.worker.Popping? && c.queue != []
    case Finish => c.worker.Finishing?
    case Enqueue => c.worker.Holding?
    case SendDone => c.sending > 0
    case Probe => c.net != []
    case RecvDone => c.probed != []
    case Deliver => c.done != []
    case PopMsg(tag) => Offset(c.data, c.frontOffset) && ParseMsg(Rest(c.data, c.frontOffset), tag).Some?
  }

  /** Only the numbers of the source decide: the loop ends when the vector has the counted size. */
  function Apply(c: State, e: Event): (c': State)
    requires Enabled(c, e)
  {
    match e
    case Call => c.(callers := c.callers + 1, inflightSends := c.inflightSends + 1)
    case Add(m) =>
      c.(callers := c.callers - 1, queue := c.queue + [m], numBytes := c.numBytes + |m.data|,
         sent := c.sent + [m])
    case TestBytes => if c.numBytes != 0 then c.(marking := c.marking + 1) else c
    case MarkUrgent => c.(marking := c.marking - 1, urgent := |c.queue|, flagged := |c.queue|)
    case Count =>
      var tag := c.queue[0].tag;
      var n := CountFrom(c.queue, tag, 0);
      c.(worker := Copying(Job(tag, DataSize(c.queue[..n]), 4 * n, [], n, c.queue[..n])))
    case Copy =>
      var j := c.worker.job;
      c.(worker := Testing(j.(vec := j.vec + Encode(c.queue[0]))))
    case TestUrgent =>
      c.(worker := if c.urgent != 0 then Decrementing(c.worker.job) else Popping(c.worker.job))
    case DecUrgent => c.(urgent := c.urgent - 1, worker := Popping(c.worker.job))
    case PopFront =>
      var j := c.worker.job;
      var j' := j.(todo := if j.todo > 0 then j.todo - 1 else 0);
      c.(queue := c.queue[1..], inflightSends := c.inflightSends - 1,
         flagged := if c.flagged > 0 then c.flagged - 1 else 0,
         worker := if |j.vec| < j.len + j.num then Copying(j') else Finishing(j'))
    case Finish =>
      var j := c.worker.job;
      c.(inflightSends := c.inflightSends + 1, numBytes := c.numBytes - j.len,
         worker := Holding(Fragment(j.tag, j.vec)))
    case Enqueue =>
      c.(worker := Idle, sending := c.sending + 1, net := c.net + [c.worker.frame])
    case SendDone => c.(sending := c.sending - 1, inflightSends := c.inflightSends - 1)
    case Probe =>
      c.(net := c.net[1..], probed := c.probed + [c.net[0]], inflightRecvs := c.inflightRecvs + 1)
    case RecvDone => c.(probed := c.probed[1..], done := c.done + [c.probed[0]])
    case Deliver => c.(done := c.done[1..], data := c.data + [c.done[0]])
    case PopMsg(tag) =>
      var len := |ParseMsg(Rest(c.data, c.frontOffset), tag).value|;
      var (d, o) := Advance(c.data, c.frontOffset + 4 + len);
      c.(data := d, frontOffset := o, popped := c.popped + 1,
         inflightRecvs := c.inflightRecvs - (|c.data| - |d|))
  }

  function Exec(c: State, events: seq<Event>): (c': State)
  {
    if events == [] then c else
    var d := Exec(c, events[..|events| - 1]);
    var e := events[|events| - 1];
    if Enabled(d, e) then Apply(d, e) else d
  }

  // ----- the invariant

  function Pending(c: State): (q: seq<Message>)
    requires c.popped <= |c.sent|
  {
    c.sent[c.popped..]
  }

  predicate InJob(w: Worker) { !w.Idle? && !w.Holding? }

  /** Copied into the frame but not yet popped. */
  predicate FrontCopied(w: Worker) { w.Testing? || w.Decrementing? || w.Popping? }

  function InHand(w: Worker): (s: seq<TaggedByte>)
  {
    match w
    case Idle => []
    case Holding(f) => Tagged(f.tag, f.data)
    case _ => Tagged(w.job.tag, w.job.vec)
  }

  /** The queued messages of which no byte is in the worker's hand. */
  function Unsent(c: State): (q: seq<Message>)
  {
    if FrontCopied(c.worker) && c.queue != [] then c.queue[1..] else c.queue
  }

  /** Every byte under way, from the receiver's end to the sender's. */
  function Arrived(c: State): (s: seq<TaggedByte>)
    requires Offset(c.data, c.frontOffset)
  {
    Rest(c.data, c.frontOffset)
  }

  function UnderWay(c: State): (s: seq<TaggedByte>)
  {
    Flatten(c.done) + (Flatten(c.probed) + (Flatten(c.net) + (InHand(c.worker) + EncodeStream(Unsent(c)))))
  }

  ghost predicate StreamInv(c: State)
  {
    && Offset(c.data, c.frontOffset)
    && c.popped <= |c.sent|
    && Arrived(c) + UnderWay(c) == EncodeStream(Pending(c))
    && NonEmpty(c.data) && NonEmpty(c.done) && NonEmpty(c.probed) && NonEmpty(c.net)
    && (c.worker.Holding? ==> c.worker.frame.data != [])
    && (forall k :: 0 <= k < |c.sent| ==> Legal(c.sent[k]))
  }

  /** What the frame still lacks: the counted messages not copied yet. */
  function Lacking(c: State): (q: seq<Message>)
    requires InJob(c.worker) && c.worker.job.todo <= |c.queue|
  {
    if FrontCopied(c.worker) && c.worker.job.todo > 0 then c.queue[1..c.worker.job.todo]
    else c.queue[..c.worker.job.todo]
  }

  ghost predicate JobInv(c: State)
  {
    && (forall k :: 0 <= k < |c.queue| ==> Legal(c.queue[k]))
    && (InJob(c.worker) ==>
         var j := c.worker.job;
         && j.todo <= |c.queue|
         && (c.worker.Finishing? <==> j.todo == 0)
         && (forall k :: 0 <= k < j.todo ==> c.queue[k].tag == j.tag)
         && (forall k :: 0 <= k < |j.counted| ==> Legal(j.counted[k]))
         && (forall k :: 0 <= k < |j.counted| ==> j.counted[k].tag == j.tag)
         && j.len == DataSize(j.counted) && j.num == 4 * |j.counted| && j.counted != []
         && j.vec + EncodeAll(Lacking(c)) == EncodeAll(j.counted)
         && c.numBytes == DataSize(c.queue) + j.len - DataSize(c.queue[..j.todo]))
    && (!InJob(c.worker) ==> c.numBytes == DataSize(c.queue))
  }

  ghost predicate UrgentInv(c: State)
  {
    && c.flagged <= |c.queue|
    && (if c.worker.Popping? then c.urgent >= 0 && c.flagged - 1 <= c.urgent <= c.flagged
        else c.flagged <= c.urgent <= c.flagged + 1)
    && (c.worker.Decrementing? ==> c.urgent > 0)
  }

  ghost predicate CountInv(c: State)
  {
    && c.inflightSends == c.callers + |c.queue| + c.sending + (if c.worker.Holding? then 1 else 0)
    && c.inflightRecvs == |c.probed| + |c.done| + |c.data|
  }

  ghost predicate Inv(c: State)
  {
    StreamInv(c) && JobInv(c) && UrgentInv(c) && CountInv(c)
  }

  lemma {:induction false} StartInv()
    ensures Inv(Start())
  {
    assert Arrived(Start()) == [];
  }

  // ----- the message stream is kept by every step

  lemma {:induction false} FlattenOne(f: Fragment)
    ensures Flatten([f]) == Tagged(f.tag, f.data)
  {
    assert Flatten([f]) == Tagged(f.tag, f.data) + [];
  }

  lemma {:induction false} FlattenPop(q: seq<Fragment>)
    requires q != []
    ensures Flatten(q) == Flatten([q[0]]) + Flatten(q[1..])
  {
    FlattenOne(q[0]);
  }

  lemma {:induction false} TaggedConcat(tag: nat, a: seq<byte>, b: seq<byte>)
    ensures Tagged(tag, a + b) == Tagged(tag, a) + Tagged(tag, b)
  {
  }

  /** StreamInv for a state whose stream differs from another's as given. */
  lemma {:induction false} StreamExtends(a: seq<TaggedByte>, u: seq<TaggedByte>, u': seq<TaggedByte>,
                                         q: seq<Message>, m: Message)
    requires a + u == EncodeStream(q) && u' == u + EncodeStream([m])
    ensures a + u' == EncodeStream(q + [m])
  {
    EncodeStreamConcat(q, [m]);
    ConcatAssoc(a, u, EncodeStream([m]));
  }

  lemma {:induction false} UnderWayExtends(c: State, m: Message)
    requires StreamInv(c) && JobInv(c) && Enabled(c, Add(m))
    ensures UnderWay(Apply(c, Add(m))) == UnderWay(c) + EncodeStream([m])
  {
    var c' := Apply(c, Add(m));
    assert Unsent(c') == Unsent(c) + [m];
    EncodeStreamConcat(Unsent(c), [m]);
    AppendDeep(Flatten(c.done), Flatten(c.probed), Flatten(c.net), InHand(c.worker),
               EncodeStream(Unsent(c)), EncodeStream([m]));
  }

  lemma {:induction false} AppendDeep<T>(a: seq<T>, b: seq<T>, c: seq<T>, d: seq<T>, e: seq<T>, f: seq<T>)
    ensures a + (b + (c + (d + (e + f)))) == (a + (b + (c + (d + e)))) + f
  {
    ConcatAssoc(d, e, f);
    ConcatAssoc(c, d + e, f);
    ConcatAssoc(b, c + (d + e), f);
    ConcatAssoc(a, b + (c + (d + e)), f);
  }

  lemma {:induction false} AddKeepsStream(c: State, m: Message)
    requires StreamInv(c) && JobInv(c) && Enabled(c, Add(m))
    ensures StreamInv(Apply(c, Add(m)))
  {
    var c' := Apply(c, Add(m));
    UnderWayExtends(c, m);
    assert Pending(c') == Pending(c) + [m];
    StreamExtends(Arrived(c), UnderWay(c), UnderWay(c'), Pending(c), m);
  }

  lemma {:induction false} CountKeepsStream(c: State)
    requires StreamInv(c) && Enabled(c, Count)
    ensures StreamInv(Apply(c, Count))
  {
    assert InHand(Apply(c, Count).worker) == [];
    assert UnderWay(Apply(c, Count)) == UnderWay(c);
  }

  lemma {:induction false} CopyKeepsStream(c: State)
    requires StreamInv(c) && JobInv(c) && Enabled(c, Copy)
    ensures StreamInv(Apply(c, Copy))
  {
    var c', j, m := Apply(c, Copy), c.worker.job, c.queue[0];
    TaggedConcat(j.tag, j.vec, Encode(m));
    assert m.tag == j.tag;
    assert InHand(c'.worker) == InHand(c.worker) + Tagged(m.tag, Encode(m));
    assert EncodeStream(c.queue) == Tagged(m.tag, Encode(m)) + EncodeStream(c.queue[1..]);
    ConcatAssoc(InHand(c.worker), Tagged(m.tag, Encode(m)), EncodeStream(c.queue[1..]));
    assert UnderWay(c') == UnderWay(c);
  }

  lemma {:induction false} FinishKeepsStream(c: State)
    requires StreamInv(c) && JobInv(c) && Enabled(c, Finish)
    ensures StreamInv(Apply(c, Finish))
  {
    var j, c' := c.worker.job, Apply(c, Finish);
    assert Lacking(c) == [] && j.vec + [] == j.vec;
    assert c'.worker.frame == Fragment(j.tag, j.vec) && Unsent(c') == Unsent(c);
    assert UnderWay(c') == UnderWay(c);
  }

  lemma {:induction false} NetExtends(net: seq<Fragment>, f: Fragment, tail: seq<TaggedByte>)
    ensures Flatten(net + [f]) + ([] + tail) == Flatten(net) + (Tagged(f.tag, f.data) + tail)
  {
    FlattenConcat(net, [f]);
    FlattenOne(f);
    ConcatAssoc(Flatten(net), Tagged(f.tag, f.data), tail);
    assert [] + tail == tail;
  }

  lemma {:induction false} EnqueueKeepsStream(c: State)
    requires StreamInv(c) && Enabled(c, Enqueue)
    ensures StreamInv(Apply(c, Enqueue))
  {
    var c', f := Apply(c, Enqueue), c.worker.frame;
    NetExtends(c.net, f, EncodeStream(c.queue));
    assert UnderWay(c') == UnderWay(c);
  }

  /** Moving the front frame of one deque to the end of the next keeps the stream. */
  lemma {:induction false} MoveFrame(to: seq<Fragment>, from: seq<Fragment>, tail: seq<TaggedByte>)
    requires from != []
    ensures Flatten(to + [from[0]]) + (Flatten(from[1..]) + tail) == Flatten(to) + (Flatten(from) + tail)
  {
    FlattenConcat(to, [from[0]]);
    FlattenPop(from);
    ConcatAssoc(Flatten([from[0]]), Flatten(from[1..]), tail);
    ConcatAssoc(Flatten(to), Flatten([from[0]]), Flatten(from[1..]) + tail);
  }

  lemma {:induction false} ProbeKeepsStream(c: State)
    requires StreamInv(c) && Enabled(c, Probe)
    ensures StreamInv(Apply(c, Probe))
  {
    MoveFrame(c.probed, c.net, InHand(c.worker) + EncodeStream(Unsent(c)));
    assert UnderWay(Apply(c, Probe)) == UnderWay(c);
  }

  lemma {:induction false} RecvDoneKeepsStream(c: State)
    requires StreamInv(c) && Enabled(c, RecvDone)
    ensures StreamInv(Apply(c, RecvDone))
  {
    MoveFrame(c.done, c.probed, Flatten(c.net) + (InHand(c.worker) + EncodeStream(Unsent(c))));
    assert UnderWay(Apply(c, RecvDone)) == UnderWay(c);
  }

  lemma {:induction false} DeliverKeepsStream(c: State)
    requires StreamInv(c) && Enabled(c, Deliver)
    ensures StreamInv(Apply(c, Deliver))
  {
    var c', f := Apply(c, Deliver), c.done[0];
    FlattenConcat(c.data, [f]);
    assert Arrived(c') == Arrived(c) + Flatten([f]);
    assert UnderWay(c) == Flatten([f]) + UnderWay(c') by {
      FlattenPop(c.done);
      ConcatAssoc(Flatten([f]), Flatten(c'.done), Flatten(c.probed) + (Flatten(c.net) + (InHand(c.worker) + EncodeStream(Unsent(c)))));
    }
    ConcatAssoc(Arrived(c), Flatten([f]), UnderWay(c'));
  }

  // ----- popping

  /** The leading run of a stream that starts with an encoded message. */
  lemma {:induction false} HeadOfStream(q: seq<Message>, a: seq<TaggedByte>, b: seq<TaggedByte>)
    requires a + b == EncodeStream(q) && a != []
    ensures q != []
    ensures forall k :: 0 <= k < |a| && k < |Encode(q[0])| ==> a[k] == TaggedByte(q[0].tag, Encode(q[0])[k])
    ensures |a| >= |Encode(q[0])| ==> a[|Encode(q[0])|..] + b == EncodeStream(q[1..])
  {
    var h := Tagged(q[0].tag, Encode(q[0]));
    assert a + b == h + EncodeStream(q[1..]);
    forall k | 0 <= k < |a| && k < |h| ensures a[k] == h[k] {
      assert (a + b)[k] == a[k];
    }
    if |a| >= |h| {
      assert a[|h|..] + b == (a + b)[|h|..];
    }
  }

  lemma {:induction false} RunAtLeast(s: seq<TaggedByte>, tag: nat, n: nat)
    requires n <= |s| && forall k :: 0 <= k < n ==> s[k].tag == tag
    ensures RunLength(s, tag) >= n
    decreases n
  {
    if n > 0 { RunAtLeast(s[1..], tag, n - 1); }
  }

  /** The parser sees the head of the pending messages and nothing else: it answers only to the
      head's tag, returns exactly the head's bytes, and does so as soon as they have arrived. */
  lemma {:induction false} ParseHead(q: seq<Message>, a: seq<TaggedByte>, b: seq<TaggedByte>, tag: nat)
    requires a + b == EncodeStream(q) && forall k :: 0 <= k < |q| ==> Legal(q[k])
    ensures ParseMsg(a, tag).Some? ==>
            && q != [] && q[0] == Fragment(tag, ParseMsg(a, tag).value)
            && a[4 + |q[0].data|..] + b == EncodeStream(q[1..])
    ensures q != [] && q[0].tag == tag && |a| >= |Encode(q[0])| ==> ParseMsg(a, tag).Some?
  {
    if a != [] {
      HeadOfStream(q, a, b);
      var m := q[0];
      assert Legal(m);
      Word32(|m.data|);
      if |a| >= 4 {
        assert Untagged(a[..4]) == Le(|m.data|, 4) by {
          forall k | 0 <= k < 4 ensures a[..4][k].b == Le(|m.data|, 4)[k] {
            assert Encode(m)[k] == Le(|m.data|, 4)[k];
          }
        }
      }
      if m.tag == tag && |a| >= |Encode(m)| { RunAtLeast(a, tag, |Encode(m)|); }
      if ParseMsg(a, tag).Some? {
        assert a[0].tag == tag;
        var v := ParseMsg(a, tag).value;
        forall k | 0 <= k < |v| ensures v[k] == m.data[k] {
          assert a[4 + k].b == Encode(m)[4 + k];
        }
        assert v == m.data;
      }
    }
  }

  lemma {:induction false} ArrivedAfterPop(c: State, tag: nat)
    requires StreamInv(c) && Enabled(c, PopMsg(tag))
    ensures var c', n := Apply(c, PopMsg(tag)), 4 + |ParseMsg(Arrived(c), tag).value|;
            NonEmpty(c'.data) && Offset(c'.data, c'.frontOffset) && Arrived(c') == Arrived(c)[n..]
  {
    var n := 4 + |ParseMsg(Arrived(c), tag).value|;
    RestAfterAdvance(c.data, c.frontOffset, n);
  }

  lemma {:induction false} RestAfterAdvance(data: seq<Fragment>, offset: nat, n: nat)
    requires Offset(data, offset) && NonEmpty(data) && n <= |Rest(data, offset)|
    ensures var (d, o) := Advance(data, offset + n);
            NonEmpty(d) && Offset(d, o) && Rest(d, o) == Rest(data, offset)[n..]
  {
    AdvanceKeepsStream(data, offset + n);
    assert Flatten(data)[offset + n..] == Flatten(data)[offset..][n..];
  }

  lemma {:induction false} PopKeepsStream(c: State, tag: nat)
    requires StreamInv(c) && Enabled(c, PopMsg(tag))
    ensures StreamInv(Apply(c, PopMsg(tag)))
    ensures Pending(c) != [] && Pending(Apply(c, PopMsg(tag))) == Pending(c)[1..]
  {
    ParseHead(Pending(c), Arrived(c), UnderWay(c), tag);
    ArrivedAfterPop(c, tag);
    assert UnderWay(Apply(c, PopMsg(tag))) == UnderWay(c);
  }

  // ----- the rest of the invariant

  /** The events that move no byte and no message of the stream. */
  lemma {:induction false} OthersKeepStream(c: State, e: Event)
    requires StreamInv(c) && Enabled(c, e)
    requires e.Call? || e.TestBytes? || e.MarkUrgent? || e.TestUrgent? || e.DecUrgent? || e.SendDone?
    ensures StreamInv(Apply(c, e))
  {
    var c' := Apply(c, e);
    assert InHand(c'.worker) == InHand(c.worker) && Unsent(c') == Unsent(c);
    assert Arrived(c') == Arrived(c) && UnderWay(c') == UnderWay(c);
  }

  lemma {:induction false} PopFrontKeepsStream(c: State)
    requires StreamInv(c) && Enabled(c, PopFront)
    ensures StreamInv(Apply(c, PopFront))
  {
    var c' := Apply(c, PopFront);
    assert InHand(c'.worker) == InHand(c.worker) && Unsent(c') == Unsent(c);
    assert Arrived(c') == Arrived(c) && UnderWay(c') == UnderWay(c);
  }

  lemma {:induction false} StepKeepsStream(c: State, e: Event)
    requires Inv(c) && Enabled(c, e)
    ensures StreamInv(Apply(c, e))
  {
    match e
    case Add(m) => AddKeepsStream(c, m);
    case Count => CountKeepsStream(c);
    case Copy => CopyKeepsStream(c);
    case PopFront => PopFrontKeepsStream(c);
    case Finish => FinishKeepsStream(c);
    case Enqueue => EnqueueKeepsStream(c);
    case Probe => ProbeKeepsStream(c);
    case RecvDone => RecvDoneKeepsStream(c);
    case Deliver => DeliverKeepsStream(c);
    case PopMsg(tag) => PopKeepsStream(c, tag);
    case _ => OthersKeepStream(c, e);
  }

  lemma {:induction false} CountKeepsJob(c: State)
    requires JobInv(c) && Enabled(c, Count)
    ensures JobInv(Apply(c, Count))
  {
    var c' := Apply(c, Count);
    assert Legal(c.queue[0]);
    assert c'.worker.job.todo > 0;
    assert Lacking(c') == c.queue[..c'.worker.job.todo];
  }

  lemma {:induction false} CopyKeepsJob(c: State)
    requires JobInv(c) && Enabled(c, Copy)
    ensures JobInv(Apply(c, Copy))
  {
    var c', j := Apply(c, Copy), c.worker.job;
    var q := c.queue[..j.todo];
    assert Lacking(c) == q && q[0] == c.queue[0] && q[1..] == c.queue[1..j.todo] == Lacking(c');
    ConcatAssoc(j.vec, Encode(q[0]), EncodeAll(q[1..]));
  }

  lemma {:induction false} PopFrontKeepsJob(c: State)
    requires JobInv(c) && Enabled(c, PopFront)
    ensures JobInv(Apply(c, PopFront))
  {
    var c', j := Apply(c, PopFront), c.worker.job;
    var q := c.queue[..j.todo];
    assert q[0] == c.queue[0] && q[1..] == c.queue[1..j.todo] == c'.queue[..c'.worker.job.todo];
    assert Lacking(c) == Lacking(c');
    assert |j.vec| + |EncodeAll(Lacking(c))| == j.len + j.num;
    assert Lacking(c) == [] <==> j.todo == 1;
  }

  lemma {:induction false} AddKeepsJob(c: State, m: Message)
    requires JobInv(c) && Enabled(c, Add(m))
    ensures JobInv(Apply(c, Add(m)))
  {
    var c' := Apply(c, Add(m));
    DataSizeConcat(c.queue, [m]);
    if InJob(c.worker) {
      assert c'.queue[..c.worker.job.todo] == c.queue[..c.worker.job.todo];
      assert Lacking(c') == Lacking(c);
    }
  }

  lemma {:induction false} FinishKeepsJob(c: State)
    requires JobInv(c) && Enabled(c, Finish)
    ensures JobInv(Apply(c, Finish))
  {
    assert c.queue[..0] == [];
  }

  lemma {:induction false} OthersKeepJob(c: State, e: Event)
    requires JobInv(c) && Enabled(c, e)
    requires !e.Add? && !e.Count? && !e.Copy? && !e.PopFront? && !e.Finish?
    ensures JobInv(Apply(c, e))
  {
    var c' := Apply(c, e);
    assert c'.queue == c.queue && c'.numBytes == c.numBytes && InJob(c'.worker) == InJob(c.worker);
    if InJob(c.worker) {
      assert c'.worker.job == c.worker.job && FrontCopied(c'.worker) == FrontCopied(c.worker);
      assert Lacking(c') == Lacking(c);
    }
  }

  lemma {:induction false} StepKeepsJob(c: State, e: Event)
    requires JobInv(c) && Enabled(c, e)
    ensures JobInv(Apply(c, e))
  {
    match e
    case Add(m) => AddKeepsJob(c, m);
    case Count => CountKeepsJob(c);
    case Copy => CopyKeepsJob(c);
    case PopFront => PopFrontKeepsJob(c);
    case Finish => FinishKeepsJob(c);
    case _ => OthersKeepJob(c, e);
  }

  lemma {:induction false} StepKeepsCounts(c: State, e: Event)
    requires JobInv(c) && UrgentInv(c) && CountInv(c) && Enabled(c, e)
    ensures UrgentInv(Apply(c, e)) && CountInv(Apply(c, e))
  {
  }

  lemma {:induction false} StepKeepsInv(c: State, e: Event)
    requires Inv(c) && Enabled(c, e)
    ensures Inv(Apply(c, e))
  {
    StepKeepsStream(c, e);
    StepKeepsJob(c, e);
    StepKeepsCounts(c, e);
  }

  lemma {:induction false} InvHolds(events: seq<Event>)
    ensures Inv(Exec(Start(), events))
  {
    if events == [] {
      StartInv();
    } else {
      InvHolds(events[..|events| - 1]);
      var d, e := Exec(Start(), events[..|events| - 1]), events[|events| - 1];
      if Enabled(d, e) { StepKeepsInv(d, e); }
    }
  }

  // ----- the properties, for every run

  /** What the callers of sendTagged have given, read off the events alone: a legal message is
      given when a call that has not yet added its message adds it. */
  function Calls(events: seq<Event>): (n: nat)
  {
    if events == [] then 0 else
    var before, e := events[..|events| - 1], events[|events| - 1];
    if e.Call? then Calls(before) + 1
    else if e.Add? && Legal(e.m) && Calls(before) > 0 then Calls(before) - 1
    else Calls(before)
  }

  function Given(events: seq<Event>): (q: seq<Message>)
  {
    if events == [] then [] else
    var before, e := events[..|events| - 1], events[|events| - 1];
    if e.Add? && Legal(e.m) && Calls(before) > 0 then Given(before) + [e.m] else Given(before)
  }

  /** What popMsg has returned: the bytes parsed from what had arrived, under the tag asked for. */
  ghost function Received(events: seq<Event>): (q: seq<Message>)
  {
    if events == [] then [] else
    var before, e := events[..|events| - 1], events[|events| - 1];
    var c := Exec(Start(), before);
    if e.PopMsg? && Enabled(c, e) then Received(before) + [Fragment(e.tag, ParseMsg(Arrived(c), e.tag).value)]
    else Received(before)
  }

  lemma {:induction false} GivenIsSent(events: seq<Event>)
    ensures Exec(Start(), events).sent == Given(events) && Exec(Start(), events).callers == Calls(events)
  {
    if events != [] {
      GivenIsSent(events[..|events| - 1]);
    }
  }

  lemma {:induction false} ReceivedIsPopped(events: seq<Event>)
    ensures var c := Exec(Start(), events); c.popped <= |c.sent| && Received(events) == c.sent[..c.popped]
  {
    if events != [] {
      var before, e := events[..|events| - 1], events[|events| - 1];
      ReceivedIsPopped(before);
      InvHolds(before);
      var c := Exec(Start(), before);
      if Enabled(c, e) {
        if e.PopMsg? { PopIsNext(c, e.tag); } else { SentGrows(c, e); }
      }
    }
  }

  lemma {:induction false} PopIsNext(c: State, tag: nat)
    requires StreamInv(c) && Enabled(c, PopMsg(tag))
    ensures var c' := Apply(c, PopMsg(tag));
            && c'.sent == c.sent && c'.popped == c.popped + 1 <= |c.sent|
            && c.sent[..c.popped + 1] == c.sent[..c.popped] + [Fragment(tag, ParseMsg(Arrived(c), tag).value)]
  {
    ParseHead(Pending(c), Arrived(c), UnderWay(c), tag);
    assert c.sent[..c.popped + 1] == c.sent[..c.popped] + [c.sent[c.popped]];
  }

  lemma {:induction false} SentGrows(c: State, e: Event)
    requires Enabled(c, e) && !e.PopMsg? && c.popped <= |c.sent|
    ensures var c' := Apply(c, e); c'.popped == c.popped && c.sent <= c'.sent && c'.sent[..c.popped] == c.sent[..c.popped]
  {
  }

  /** Batching round trip: whatever the interleaving, the messages popMsg has returned are the
      first of those that were given, in order, once each, whole; popMsg answers only to the tag of
      the next one; and it does answer once the bytes of that one have arrived. */
  lemma {:induction false} PoppedInOrder(events: seq<Event>, tag: nat)
    ensures Received(events) <= Given(events)
    ensures var c, k := Exec(Start(), events), |Received(events)|;
            && Offset(c.data, c.frontOffset)
            && (Enabled(c, PopMsg(tag)) ==> k < |Given(events)| && Given(events)[k].tag == tag)
            && ((k < |Given(events)| && Given(events)[k].tag == tag &&
                 |Arrived(c)| >= |Encode(Given(events)[k])|) ==> Enabled(c, PopMsg(tag)))
  {
    InvHolds(events);
    GivenIsSent(events);
    ReceivedIsPopped(events);
    var c := Exec(Start(), events);
    ParseHead(Pending(c), Arrived(c), UnderWay(c), tag);
  }

  /** Once nothing is under way any more, everything given and not yet popped lies in the receive
      buffer. */
  lemma {:induction false} QuietMeansArrived(events: seq<Event>)
    ensures Received(events) <= Given(events)
    ensures var c := Exec(Start(), events);
            && Offset(c.data, c.frontOffset)
            && ((c.queue == [] && c.worker.Idle? && c.net == [] && c.probed == [] && c.done == []) ==>
                 Arrived(c) == EncodeStream(Given(events)[|Received(events)|..]))
  {
    InvHolds(events);
    GivenIsSent(events);
    ReceivedIsPopped(events);
    var c := Exec(Start(), events);
    if c.queue == [] && c.worker.Idle? && c.net == [] && c.probed == [] && c.done == [] {
      assert UnderWay(c) == [];
    }
  }

  /** assemble counts the longest prefix of the queue that has one tag and whose frame fits the int
      limit, and it counts at least one message. */
  lemma {:induction false} CountTakesLongest(events: seq<Event>)
    ensures var c := Exec(Start(), events);
            Enabled(c, Count) ==>
              var q := Apply(c, Count).worker.job.counted;
              && q != [] && q <= c.queue && (forall k :: 0 <= k < |q| ==> q[k].tag == c.queue[0].tag)
              && |EncodeAll(q)| <= INT_MAX
              && (|q| < |c.queue| ==> c.queue[|q|].tag != c.queue[0].tag || |EncodeAll(c.queue[..|q| + 1])| > INT_MAX)
  {
    InvHolds(events);
    var c := Exec(Start(), events);
    if Enabled(c, Count) { CountOfQueue(c.queue); }
  }

  lemma {:induction false} CountOfQueue(q: seq<Message>)
    requires q != [] && Legal(q[0])
    ensures var n := CountFrom(q, q[0].tag, 0);
            && 0 < n <= |q| && (forall k :: 0 <= k < n ==> q[k].tag == q[0].tag) && |EncodeAll(q[..n])| <= INT_MAX
            && (n < |q| ==> q[n].tag != q[0].tag || |EncodeAll(q[..n + 1])| > INT_MAX)
  {
    CountIsLongest(q, q[0].tag, 0);
  }

  /** Each frame holds exactly the messages counted by the first pass, under their tag, although
      senders add and flushers mark between the two passes: no step of assemble changes what was
      counted, and the frame that Finish hands over encodes it. */
  lemma {:induction false} FrameIsCountedPrefix(events: seq<Event>, e: Event)
    ensures var c := Exec(Start(), events);
            Enabled(c, e) && InJob(c.worker) ==>
              var w, q := Apply(c, e).worker, c.worker.job.counted;
              && q != [] && (InJob(w) ==> w.job.counted == q)
              && (!InJob(w) ==> w == Holding(Fragment(q[0].tag, EncodeAll(q))))
  {
    InvHolds(events);
    var c := Exec(Start(), events);
    if Enabled(c, e) && InJob(c.worker) { AssembleKeepsCount(c, e); }
  }

  lemma {:induction false} AssembleKeepsCount(c: State, e: Event)
    requires JobInv(c) && Enabled(c, e) && InJob(c.worker)
    ensures var w, q := Apply(c, e).worker, c.worker.job.counted;
            && q != [] && (InJob(w) ==> w.job.counted == q)
            && (!InJob(w) ==> w == Holding(Fragment(q[0].tag, EncodeAll(q))))
  {
    if c.worker.Finishing? { assert Lacking(c) == []; }
  }

  /** numBytes is zero only when nothing is queued, also while assemble has popped messages it
      has not yet subtracted. */
  lemma {:induction false} ZeroBytes(c: State)
    requires JobInv(c)
    ensures c.numBytes >= 0
    ensures c.numBytes == 0 <==> !InJob(c.worker) && c.queue == []
  {
    if InJob(c.worker) {
      var j := c.worker.job;
      assert c.queue == c.queue[..j.todo] + c.queue[j.todo..];
      DataSizeConcat(c.queue[..j.todo], c.queue[j.todo..]);
      DataSizePositive(j.counted);
    } else if c.queue != [] {
      DataSizePositive(c.queue);
    }
  }

  lemma {:induction false} MarkCovers(c: State)
    requires JobInv(c) && UrgentInv(c)
    ensures c.flagged > 0 && !InJob(c.worker) ==> ReadyByUrgency(c)
    ensures Apply(c, TestBytes).marking == c.marking ==> c.queue == []
    ensures Enabled(c, MarkUrgent) ==> Apply(c, MarkUrgent).flagged == |c.queue|
  {
    ZeroBytes(c);
  }

  /** Flush guarantee. As long as a message covered by the last markUrgent is queued, the worker
      finds the buffer ready by its urgent rule alone. And the test that markUrgent makes without
      the lock never skips a message: when it fails nothing is queued, and when it passes the
      assignment that follows covers every message queued by then. The urgency wears off: the
      worker is never asked to hurry for more than one message beyond those covered. */
  lemma {:induction false} FlushGuarantee(events: seq<Event>)
    ensures var c := Exec(Start(), events);
            && (c.flagged > 0 && !InJob(c.worker) ==> ReadyByUrgency(c))
            && c.urgent <= c.flagged + 1 && c.flagged <= |c.queue|
            && (Apply(c, TestBytes).marking == c.marking ==> c.queue == [])
            && (Enabled(c, MarkUrgent) ==> Apply(c, MarkUrgent).flagged == |c.queue|)
  {
    InvHolds(events);
    MarkCovers(Exec(Start(), events));
  }

  /** The steps that bring a message nearer to its receiver: those of the worker and of MPI's
      receive side, but neither a flush nor the completion of a send. */
  predicate Moves(e: Event)
  {
    || e.Count? || e.Copy? || e.TestUrgent? || e.DecUrgent? || e.PopFront? || e.Finish? || e.Enqueue?
    || e.Probe? || e.RecvDone? || e.Deliver?
  }

  /** The channel is never stuck: while a message has not been popped, either some step brings
      bytes nearer to the receiver, or the head of the channel can be popped. */
  lemma {:induction false} NeverStuck(c: State) returns (e: Event)
    requires Inv(c) && c.popped < |c.sent|
    ensures Enabled(c, e)
    ensures Moves(e) || e == PopMsg(c.sent[c.popped].tag)
  {
    e := if c.done != [] then Deliver else if c.probed != [] then RecvDone else if c.net != [] then Probe
      else match c.worker
           case Idle => if c.queue != [] then Count else PopMsg(c.sent[c.popped].tag)
           case Copying(_) => Copy
           case Testing(_) => TestUrgent
           case Decrementing(_) => DecUrgent
           case Popping(_) => PopFront
           case Finishing(_) => Finish
           case Holding(_) => Enqueue;
    ZeroBytes(c);
    if e.PopMsg? {
      assert UnderWay(c) == [];
      assert Arrived(c) == EncodeStream(Pending(c));
      ParseHead(Pending(c), Arrived(c), UnderWay(c), e.tag);
    }
  }

  /** assemble is never entered on an empty queue, so no empty frame is ever sent. */
  lemma {:induction false} ReadyMeansQueued(events: seq<Event>)
    ensures var c := Exec(Start(), events);
            !InJob(c.worker) && c.numBytes != 0 ==> c.queue != []
  {
    InvHolds(events);
  }

  // ----- the in-flight counters of a host

  ghost function TotalSends(cs: seq<State>): (n: int)
  {
    if cs == [] then 0 else cs[0].inflightSends + TotalSends(cs[1..])
  }

  ghost function TotalRecvs(cs: seq<State>): (n: int)
  {
    if cs == [] then 0 else cs[0].inflightRecvs + TotalRecvs(cs[1..])
  }

  /** No message of this pair is between the call of sendTagged and the completed MPI send. */
  ghost predicate NothingToSend(c: State)
  {
    c.callers == 0 && c.queue == [] && c.sending == 0 && c.worker.Idle?
  }

  /** The state the counter does not show: past the last decrement of assemble, before the
      increment for the frame, with nothing else to send. */
  ghost predicate UncountedFrame(c: State)
  {
    c.callers == 0 && c.queue == [] && c.sending == 0 && c.worker.Finishing?
  }

  lemma {:induction false} ZeroSendsOfPair(c: State)
    requires JobInv(c) && CountInv(c)
    ensures c.inflightSends >= 0
    ensures c.inflightSends == 0 <==> NothingToSend(c) || UncountedFrame(c)
  {
  }

  /** Conservation of sends: anyPendingSends answers no exactly when every pair has nothing to
      send, but for one gap: a worker past its last decrement in assemble holds a frame that the
      counter does not show. */
  lemma {:induction false} ZeroSendsMeansIdle(cs: seq<State>)
    requires forall k :: 0 <= k < |cs| ==> JobInv(cs[k]) && CountInv(cs[k])
    ensures TotalSends(cs) >= 0
    ensures TotalSends(cs) == 0 <==>
            forall k :: 0 <= k < |cs| ==> NothingToSend(cs[k]) || UncountedFrame(cs[k])
  {
    if cs != [] {
      ZeroSendsMeansIdle(cs[1..]);
      ZeroSendsOfPair(cs[0]);
      if TotalSends(cs) == 0 {
        forall k | 0 <= k < |cs| ensures NothingToSend(cs[k]) || UncountedFrame(cs[k]) {
          if k > 0 { assert cs[k] == cs[1..][k - 1]; }
        }
      }
    }
  }

  lemma {:induction false} ZeroRecvsOfPair(c: State)
    requires CountInv(c)
    ensures c.inflightRecvs >= 0
    ensures c.inflightRecvs == 0 <==> c.probed == [] && c.done == [] && c.data == []
  {
  }

  /** Conservation of receives: the counter is zero exactly when every frame that was probed has
      been consumed to its last byte. */
  lemma {:induction false} ZeroRecvsMeansConsumed(cs: seq<State>)
    requires forall k :: 0 <= k < |cs| ==> CountInv(cs[k])
    ensures TotalRecvs(cs) >= 0
    ensures TotalRecvs(cs) == 0 <==>
            forall k :: 0 <= k < |cs| ==> cs[k].probed == [] && cs[k].done == [] && cs[k].data == []
  {
    if cs != [] {
      ZeroRecvsMeansConsumed(cs[1..]);
      ZeroRecvsOfPair(cs[0]);
      if TotalRecvs(cs) == 0 {
        forall k | 0 <= k < |cs| ensures cs[k].probed == [] && cs[k].done == [] && cs[k].data == [] {
          if k > 0 { assert cs[k] == cs[1..][k - 1]; }
        }
      }
    }
  }

  lemma {:induction false} ExecSnoc(events: seq<Event>, e: Event)
    ensures var d := Exec(Start(), events);
            Exec(Start(), events + [e]) == if Enabled(d, e) then Apply(d, e) else d
  {
    assert (events + [e])[..|events|] == events;
  }

  /** One queued message and nothing else. */
  function OneQueued(m: Message): (c: State)
  {
    Start().(queue := [m], numBytes := |m.data|, inflightSends := 1, sent := [m])
  }

  lemma {:induction false} OneQueuedReachable(m: Message) returns (events: seq<Event>)
    requires Legal(m)
    ensures Exec(Start(), events) == OneQueued(m)
  {
    ExecSnoc([], Call);
    events := [] + [Call];
    ExecSnoc(events, Add(m));
    events := events + [Add(m)];
  }

  lemma {:induction false} FirstCopyOfOne(m: Message)
    requires Legal(m)
    ensures var j := Job(m.tag, |m.data|, 4, [], 1, [m]);
            && Enabled(OneQueued(m), Count)
            && Apply(OneQueued(m), Count) == OneQueued(m).(worker := Copying(j))
            && Apply(Apply(OneQueued(m), Count), Copy) == OneQueued(m).(worker := Testing(j.(vec := Encode(m))))
  {
    assert CountFrom([m], m.tag, 0) == 1 && [m][..1] == [m] && [m][1..] == [];
    assert DataSize([m]) == |m.data| && [] + Encode(m) == Encode(m);
  }

  /** The gap is real: one message, its worker between pop and increment, and the counter at zero. */
  lemma {:induction false} SendGapReachable(m: Message) returns (events: seq<Event>)
    requires Legal(m)
    ensures Exec(Start(), events).inflightSends == 0
    ensures UncountedFrame(Exec(Start(), events))
    ensures Exec(Start(), events).worker.job.vec == Encode(m)
  {
    events := OneQueuedReachable(m);
    FirstCopyOfOne(m);
    ExecSnoc(events, Count);
    events := events + [Count];
    ExecSnoc(events, Copy);
    events := events + [Copy];
    ExecSnoc(events, TestUrgent);
    events := events + [TestUrgent];
    ExecSnoc(events, PopFront);
    events := events + [PopFront];
  }
}
