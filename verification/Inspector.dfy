/** The fine-grained inspector of nested parallelism on the GPU: threads with loops of different
    lengths spread the flattened iterations over shared slots, round by round. */
module Inspector {
  import opened Arith

  // ----- the flattened iteration space

  datatype Item = Item(value: int, src: int)

  /** One inner loop per thread: how many iterations, from which value, for which source. */
  datatype Loop = Loop(size: nat, start: int, src: int)

  /** Where the iterations of thread k start: the exclusive prefix sum. */
  function Prefix(ls: seq<Loop>, k: nat): (p: nat)
    requires k <= |ls|
  {
    if k == 0 then 0 else Prefix(ls, k - 1) + ls[k - 1].size
  }

  function Total(ls: seq<Loop>): (n: nat) { Prefix(ls, |ls|) }

  lemma {:induction false} PrefixMonotone(ls: seq<Loop>, j: nat, k: nat)
    requires j <= k <= |ls|
    ensures Prefix(ls, j) <= Prefix(ls, k)
    decreases k
  {
    if j < k { PrefixMonotone(ls, j, k - 1); }
  }

  /** The thread that owns flattened iteration g. */
  ghost function Owner(ls: seq<Loop>, k: nat, g: nat): (r: nat)
    requires k <= |ls| && g < Prefix(ls, k)
    ensures r < k && Prefix(ls, r) <= g < Prefix(ls, r + 1)
  {
    if g >= Prefix(ls, k - 1) then k - 1 else Owner(ls, k - 1, g)
  }

  lemma {:induction false} OwnerUnique(ls: seq<Loop>, k: nat, g: nat)
    requires k < |ls| && Prefix(ls, k) <= g < Prefix(ls, k + 1)
    ensures g < Total(ls) && Owner(ls, |ls|, g) == k
  {
    PrefixMonotone(ls, k + 1, |ls|);
    var r := Owner(ls, |ls|, g);
    if r < k { PrefixMonotone(ls, r + 1, k); } else if k < r { PrefixMonotone(ls, k + 1, r); }
  }

  /** Flattened iteration g. */
  ghost function Flat(ls: seq<Loop>, g: nat): (i: Item)
    requires g < Total(ls)
  {
    var k := Owner(ls, |ls|, g);
    Item(ls[k].start + (g - Prefix(ls, k)), ls[k].src)
  }

  /** Iteration j of thread k is one flattened iteration, and all of them come so. */
  lemma {:induction false} FlatIsThreadIteration(ls: seq<Loop>, k: nat, j: nat)
    requires k < |ls| && j < ls[k].size
    ensures var g := Prefix(ls, k) + j;
            g < Total(ls) && Owner(ls, |ls|, g) == k && Flat(ls, g) == Item(ls[k].start + j, ls[k].src)
  {
    OwnerUnique(ls, k, Prefix(ls, k) + j);
  }

  // ----- one thread's inspector

  function Clamp(x: int, hi: nat): (r: nat) { if x < 0 then 0 else if x > hi then hi else x }

  /** How many iterations fit from the slot at on: those left of the loop, to the round's end. */
  function Taken(left: int, at: int, itsize: nat): (n: nat)
  {
    if 0 < left && at < itsize then Clamp(left, if at < 0 then itsize else itsize - at) else 0
  }

  /** The slots after n iterations were written from the slot at on. */
  ghost function Values(slots: seq<int>, at: int, n: nat, first: int): (r: seq<int>)
  {
    seq(|slots|, l requires 0 <= l < |slots| => if at <= l < at + n then first + (l - at) else slots[l])
  }

  ghost function Sources(slots: seq<int>, at: int, n: nat, src: int): (r: seq<int>)
  {
    seq(|slots|, l requires 0 <= l < |slots| => if at <= l < at + n then src else slots[l])
  }

  class NPInspector1 {
    var total: int
    var done: int
    var size: int
    var start: int
    var offset: int
    var myDone: int

    /** What is left of the thread's loop sits at or after the current round's first slot. */
    ghost predicate Valid()
      reads this
    {
      0 <= myDone <= size && (myDone < size ==> done <= offset)
    }

    /** The thread, whose iterations start at the flattened iteration p, is through with those
        below the flattened iteration upTo, and with no others. */
    ghost predicate ThroughTo(p: int, upTo: int)
      reads this
    {
      0 <= size && offset == p + myDone && myDone == Clamp(upTo - p, size)
    }

    /** Writes the thread's next iterations to consecutive slots as far as the round goes: a thread
        that was through with the earlier rounds is then through with this one. */
    method Inspect2(itvalue: array<int>, source: array<int>, itsize: nat, src: int) returns (n: int)
      requires Valid() && itvalue.Length == source.Length == itsize && itvalue != source
      modifies this, itvalue, source
      ensures Valid() && unchanged(`total, `done, `size, `start)
      ensures n == Taken(size - old(myDone), old(offset) - done, itsize)
      ensures myDone == old(myDone) + n && offset == old(offset) + n
      ensures itvalue[..] == Values(old(itvalue[..]), old(offset) - done, n, start + old(myDone))
      ensures source[..] == Sources(old(source[..]), old(offset) - done, n, src)
      ensures forall p: int :: old(ThroughTo(p, done)) ==> ThroughTo(p, done + itsize)
    {
      n := 0;
      while myDone + n < size && offset - done + n < itsize
        invariant 0 <= n && myDone + n <= size && (n > 0 ==> offset - done + n <= itsize)
        invariant unchanged(this)
        invariant itvalue[..] == Values(old(itvalue[..]), offset - done, n, start + myDone)
        invariant source[..] == Sources(old(source[..]), offset - done, n, src)
        decreases size - myDone - n
      {
        itvalue[offset - done + n] := start + myDone + n;
        source[offset - done + n] := src;
        n := n + 1;
      }
      myDone := myDone + n;
      offset := offset + n;
    }

    /** A thread that is through with a round stands where the next round starts. */
    method ExecuteRoundDone(itsize: nat)
      requires Valid() && (myDone < size ==> offset >= done + itsize)
      modifies this
      ensures Valid() && total == old(total) - itsize && done == old(done) + itsize
      ensures unchanged(`size, `start, `offset, `myDone)
      ensures forall p: int :: old(ThroughTo(p, done + itsize)) ==> ThroughTo(p, done)
    {
      total := total - itsize;
      done := done + itsize;
    }
  }

  // ----- a block of threads, all interleavings

  /** One thread: its inspector, the loop counter of inspect while it is open, the slot it executes
      next. */
  datatype Thread = Thread(total: int, done: int, size: int, start: int, offset: int, myDone: int,
                           open: bool, i: nat, e: nat)

  datatype Phase = Inspecting | Executing | Over

  /** History: base, the flattened iteration of slot 0 in this round; written, how often each slot
      was written in it; ran, how often each flattened iteration was executed. */
  datatype State = State(phase: Phase, ts: seq<Thread>, itvalue: seq<int>, source: seq<int>,
                         base: nat, written: seq<nat>, ran: seq<nat>)

  datatype Event = Write(k: nat) | Close(k: nat) | Barrier | Execute(k: nat) | Next

  predicate MayWrite(th: Thread, itsize: nat)
  {
    th.open && th.myDone + th.i < th.size && th.offset - th.done + th.i < itsize
  }

  predicate MayExecute(th: Thread, itsize: nat) { th.e < itsize && th.e < th.total }

  ghost predicate Enabled(itsize: nat, s: State, e: Event)
  {
    match e
    case Write(k) =>
      && s.phase == Inspecting && k < |s.ts| && MayWrite(s.ts[k], itsize)
      && 0 <= s.ts[k].offset - s.ts[k].done + s.ts[k].i < |s.itvalue| == |s.source| == |s.written|
    case Close(k) => s.phase == Inspecting && k < |s.ts| && s.ts[k].open && !MayWrite(s.ts[k], itsize)
    case Barrier => s.phase == Inspecting && forall k :: 0 <= k < |s.ts| ==> !s.ts[k].open
    case Execute(k) =>
      s.phase == Executing && k < |s.ts| && MayExecute(s.ts[k], itsize) && s.base + s.ts[k].e < |s.ran|
    case Next => s.phase == Executing && forall k :: 0 <= k < |s.ts| ==> !MayExecute(s.ts[k], itsize)
  }

  ghost function Turn(itsize: nat, th: Thread, k: nat): (r: Thread)
  {
    th.(total := th.total - itsize, done := th.done + itsize, open := true, e := k)
  }

  ghost function Apply(itsize: nat, ls: seq<Loop>, s: State, e: Event): (s': State)
    requires Enabled(itsize, s, e) && |s.ts| == |ls| > 0
    ensures |s'.ts| == |ls|
  {
    match e
    case Write(k) =>
      var th := s.ts[k];
      var l := th.offset - th.done + th.i;
      s.(itvalue := s.itvalue[l := th.start + th.myDone + th.i], source := s.source[l := ls[k].src],
         written := s.written[l := s.written[l] + 1], ts := s.ts[k := th.(i := th.i + 1)])
    case Close(k) =>
      var th := s.ts[k];
      s.(ts := s.ts[k := th.(myDone := th.myDone + th.i, offset := th.offset + th.i, i := 0, open := false)])
    case Barrier => s.(phase := Executing)
    case Execute(k) =>
      var th := s.ts[k];
      s.(ran := s.ran[s.base + th.e := s.ran[s.base + th.e] + 1], ts := s.ts[k := th.(e := th.e + |s.ts|)])
    case Next =>
      var ts := seq(|s.ts|, k requires 0 <= k < |s.ts| => Turn(itsize, s.ts[k], k));
      State(if ts[0].total > 0 then Inspecting else Over, ts, s.itvalue, s.source,
            s.base + itsize, seq(itsize, _ => 0), s.ran)
  }

  ghost function Begin(itsize: nat, ls: seq<Loop>, junk: seq<int>): (s: State)
  {
    var n := Total(ls);
    State(if n > 0 then Inspecting else Over,
          seq(|ls|, k requires 0 <= k < |ls| => Thread(n, 0, ls[k].size, ls[k].start, Prefix(ls, k), 0, true, 0, k)),
          junk, junk, 0, seq(itsize, _ => 0), seq(n, _ => 0))
  }

  /** junk is what the shared slots hold before the first round. */
  ghost function Exec(itsize: nat, ls: seq<Loop>, junk: seq<int>, events: seq<Event>): (s: State)
    requires |ls| > 0
    ensures |s.ts| == |ls|
  {
    if events == [] then Begin(itsize, ls, junk) else
    var s, e := Exec(itsize, ls, junk, events[..|events| - 1]), events[|events| - 1];
    if Enabled(itsize, s, e) then Apply(itsize, ls, s, e) else s
  }

  // ----- the invariant

  /** Of its own iterations a thread has written those below its progress. */
  function Progress(th: Thread): (p: int) { th.myDone + th.i }

  ghost predicate ThreadInv(itsize: nat, ls: seq<Loop>, s: State, k: nat)
    requires k < |ls| == |s.ts|
  {
    var th, p, d := s.ts[k], Prefix(ls, k), s.base;
    && th.size == ls[k].size && th.start == ls[k].start && th.done == d && th.total == Total(ls) - d
    && th.offset == p + th.myDone
    && (if th.open
        then th.myDone == Clamp(d - p, th.size) && th.myDone + th.i <= th.size
             && (th.i > 0 ==> th.offset - d + th.i <= itsize)
        else th.i == 0 && th.myDone == Clamp(d + itsize - p, th.size))
    && (s.phase == Executing ==> !th.open) && (s.phase == Inspecting ==> th.e == k)
    && th.e % |ls| == k
  }

  ghost predicate SlotInv(itsize: nat, ls: seq<Loop>, s: State, g: nat)
    requires |ls| == |s.ts| && |s.itvalue| == |s.source| == |s.written| == itsize
    requires s.base <= g < s.base + itsize && g < Total(ls)
  {
    var k, l := Owner(ls, |ls|, g), g - s.base;
    if g - Prefix(ls, k) < Progress(s.ts[k])
    then Item(s.itvalue[l], s.source[l]) == Flat(ls, g) && s.written[l] == 1
    else s.written[l] == 0
  }

  ghost predicate RanInv(itsize: nat, ls: seq<Loop>, s: State, g: nat)
    requires |ls| == |s.ts| > 0 && g < |s.ran|
  {
    s.ran[g] == if g < s.base then 1
                else if g < s.base + itsize && g - s.base < s.ts[(g - s.base) % |ls|].e then 1 else 0
  }

  ghost predicate Shape(itsize: nat, ls: seq<Loop>, s: State)
  {
    && |s.ts| == |ls| > 0 && |s.itvalue| == |s.source| == |s.written| == itsize > 0 && |s.ran| == Total(ls)
    && (s.phase == Over <==> s.base >= Total(ls))
  }

  ghost predicate Inv(itsize: nat, ls: seq<Loop>, s: State)
  {
    && Shape(itsize, ls, s)
    && (forall k: nat :: k < |ls| ==> ThreadInv(itsize, ls, s, k))
    && (forall g: nat :: s.base <= g < s.base + itsize && g < Total(ls) ==> SlotInv(itsize, ls, s, g))
    && (forall g: nat :: g < Total(ls) ==> RanInv(itsize, ls, s, g))
  }

  lemma {:induction false} SameStride(a: nat, b: nat, t: nat)
    requires t > 0 && a % t == b % t && b <= a < b + t
    ensures a == b
  {
    var d := a / t - b / t;
    assert a - b == t * d by { assert a == t * (a / t) + a % t && b == t * (b / t) + b % t; }
    MulBounds(t, d);
  }

  lemma {:induction false} NextStride(a: nat, t: nat)
    requires t > 0
    ensures (a + t) % t == a % t && a % t <= a
  {
    ModUnique(a + t, t, a / t + 1, a % t);
    assert a == t * (a / t) + a % t;
  }

  lemma {:induction false} SmallStride(k: nat, t: nat)
    requires k < t
    ensures k % t == k
  {
    ModUnique(k, t, 0, k);
  }

  // ----- threads

  lemma {:induction false} CloseCatchesUp(itsize: nat, size: nat, p: nat, d: nat, myDone: nat, i: nat)
    requires itsize > 0 && myDone == Clamp(d - p, size) && myDone + i <= size
    requires i > 0 ==> p + myDone - d + i <= itsize
    requires !(myDone + i < size && p + myDone - d + i < itsize)
    ensures myDone + i == Clamp(d + itsize - p, size)
  {
  }

  lemma {:induction false} StepKeepsThread(itsize: nat, ls: seq<Loop>, s: State, e: Event, k: nat)
    requires Shape(itsize, ls, s) && Enabled(itsize, s, e) && k < |ls| && ThreadInv(itsize, ls, s, k)
    ensures ThreadInv(itsize, ls, Apply(itsize, ls, s, e), k)
  {
    match e {
      case Close(j) =>
        if j == k {
          var th := s.ts[k];
          CloseCatchesUp(itsize, th.size, Prefix(ls, k), s.base, th.myDone, th.i);
        }
      case Execute(j) => NextStride(s.ts[k].e, |ls|);
      case Next => SmallStride(k, |ls|);
      case _ =>
    }
  }

  /** An open thread with iterations left writes inside the slots. */
  lemma {:induction false} WriteInBounds(itsize: nat, ls: seq<Loop>, s: State, k: nat)
    requires Shape(itsize, ls, s) && k < |ls| && ThreadInv(itsize, ls, s, k) && MayWrite(s.ts[k], itsize)
    ensures var th := s.ts[k]; 0 <= th.offset - th.done + th.i < itsize
    ensures var g := Prefix(ls, k) + Progress(s.ts[k]);
            && s.base <= g < s.base + itsize && g < Total(ls) && Owner(ls, |ls|, g) == k
            && g - s.base == s.ts[k].offset - s.ts[k].done + s.ts[k].i
  {
    OwnerUnique(ls, k, Prefix(ls, k) + Progress(s.ts[k]));
  }

  // ----- slots

  lemma {:induction false} WriteKeepsSlot(itsize: nat, ls: seq<Loop>, s: State, k: nat, g: nat)
    requires Shape(itsize, ls, s) && Enabled(itsize, s, Write(k)) && ThreadInv(itsize, ls, s, k)
    requires s.base <= g < s.base + itsize && g < Total(ls) && SlotInv(itsize, ls, s, g)
    ensures SlotInv(itsize, ls, Apply(itsize, ls, s, Write(k)), g)
  {
    WriteInBounds(itsize, ls, s, k);
  }

  lemma {:induction false} StepKeepsSlot(itsize: nat, ls: seq<Loop>, s: State, e: Event, g: nat)
    requires Inv(itsize, ls, s) && Enabled(itsize, s, e) && e != Next
    requires s.base <= g < s.base + itsize && g < Total(ls)
    ensures SlotInv(itsize, ls, Apply(itsize, ls, s, e), g)
  {
    assert SlotInv(itsize, ls, s, g);
    if e.Write? {
      assert ThreadInv(itsize, ls, s, e.k);
      WriteKeepsSlot(itsize, ls, s, e.k, g);
    }
  }

  /** A new round starts with nothing written. */
  lemma {:induction false} NextKeepsSlot(itsize: nat, ls: seq<Loop>, s: State, g: nat)
    requires Inv(itsize, ls, s) && Enabled(itsize, s, Next)
    requires s.base + itsize <= g < s.base + 2 * itsize && g < Total(ls)
    ensures SlotInv(itsize, ls, Apply(itsize, ls, s, Next), g)
  {
    var k := Owner(ls, |ls|, g);
    assert ThreadInv(itsize, ls, s, k);
  }

  // ----- executions

  lemma {:induction false} ExecuteKeepsRan(itsize: nat, ls: seq<Loop>, s: State, k: nat, g: nat)
    requires Shape(itsize, ls, s) && Enabled(itsize, s, Execute(k)) && ThreadInv(itsize, ls, s, k)
    requires g < Total(ls) && RanInv(itsize, ls, s, g)
    ensures RanInv(itsize, ls, Apply(itsize, ls, s, Execute(k)), g)
  {
    if g >= s.base {
      var l, e := g - s.base, s.ts[k].e;
      if l % |ls| == k && e <= l < e + |ls| { SameStride(l, e, |ls|); }
    }
  }

  lemma {:induction false} NextKeepsRan(itsize: nat, ls: seq<Loop>, s: State, g: nat)
    requires Inv(itsize, ls, s) && Enabled(itsize, s, Next) && g < Total(ls)
    ensures RanInv(itsize, ls, Apply(itsize, ls, s, Next), g)
  {
    assert RanInv(itsize, ls, s, g);
    if s.base <= g < s.base + itsize {
      var k := (g - s.base) % |ls|;
      assert ThreadInv(itsize, ls, s, k);
      assert !MayExecute(s.ts[k], itsize);
    } else if g >= s.base + itsize {
      NextStride(g - s.base - itsize, |ls|);
    }
  }

  lemma {:induction false} StepKeepsRan(itsize: nat, ls: seq<Loop>, s: State, e: Event, g: nat)
    requires Inv(itsize, ls, s) && Enabled(itsize, s, e) && g < Total(ls)
    ensures RanInv(itsize, ls, Apply(itsize, ls, s, e), g)
  {
    assert RanInv(itsize, ls, s, g);
    match e {
      case Execute(k) =>
        assert ThreadInv(itsize, ls, s, k);
        ExecuteKeepsRan(itsize, ls, s, k, g);
      case Next => NextKeepsRan(itsize, ls, s, g);
      case _ =>
    }
  }

  lemma {:induction false} StepKeepsInv(itsize: nat, ls: seq<Loop>, s: State, e: Event)
    requires Inv(itsize, ls, s) && Enabled(itsize, s, e)
    ensures Inv(itsize, ls, Apply(itsize, ls, s, e))
  {
    var s' := Apply(itsize, ls, s, e);
    if e == Next { assert ThreadInv(itsize, ls, s, 0); }
    forall k: nat | k < |ls| ensures ThreadInv(itsize, ls, s', k) { StepKeepsThread(itsize, ls, s, e, k); }
    forall g: nat | s'.base <= g < s'.base + itsize && g < Total(ls) ensures SlotInv(itsize, ls, s', g) {
      if e == Next { NextKeepsSlot(itsize, ls, s, g); } else { StepKeepsSlot(itsize, ls, s, e, g); }
    }
    forall g: nat | g < Total(ls) ensures RanInv(itsize, ls, s', g) { StepKeepsRan(itsize, ls, s, e, g); }
  }

  lemma {:induction false} BeginInv(itsize: nat, ls: seq<Loop>, junk: seq<int>)
    requires |ls| > 0 && |junk| == itsize > 0
    ensures Inv(itsize, ls, Begin(itsize, ls, junk))
  {
    var s := Begin(itsize, ls, junk);
    forall k: nat | k < |ls| ensures ThreadInv(itsize, ls, s, k) { SmallStride(k, |ls|); }
    forall g: nat | g < Total(ls) ensures RanInv(itsize, ls, s, g) { NextStride(g, |ls|); }
  }

  lemma {:induction false} InvHolds(itsize: nat, ls: seq<Loop>, junk: seq<int>, events: seq<Event>)
    requires |ls| > 0 && |junk| == itsize > 0
    ensures Inv(itsize, ls, Exec(itsize, ls, junk, events))
  {
    if events == [] {
      BeginInv(itsize, ls, junk);
    } else {
      var before := events[..|events| - 1];
      var s, e := Exec(itsize, ls, junk, before), events[|events| - 1];
      InvHolds(itsize, ls, junk, before);
      if Enabled(itsize, s, e) { StepKeepsInv(itsize, ls, s, e); }
    }
  }

  // ----- what the rounds do

  /** When the threads execute, each slot of the round was written exactly once and holds the next
      flattened iteration. */
  lemma {:induction false} RoundIsNextSlice(itsize: nat, ls: seq<Loop>, junk: seq<int>, events: seq<Event>, l: nat)
    requires |ls| > 0 && |junk| == itsize > 0 && Exec(itsize, ls, junk, events).phase == Executing
    requires var s := Exec(itsize, ls, junk, events); l < itsize && s.base + l < Total(ls)
    ensures var s := Exec(itsize, ls, junk, events);
            && l < |s.itvalue| == |s.source| == |s.written|
            && Item(s.itvalue[l], s.source[l]) == Flat(ls, s.base + l) && s.written[l] == 1
  {
    InvHolds(itsize, ls, junk, events);
    var s := Exec(itsize, ls, junk, events);
    assert SlotInv(itsize, ls, s, s.base + l);
    assert ThreadInv(itsize, ls, s, Owner(ls, |ls|, s.base + l));
  }

  /** No slot is written twice in a round, in any interleaving, nor outside the slots. */
  lemma {:induction false} WritesAreSafe(itsize: nat, ls: seq<Loop>, junk: seq<int>, events: seq<Event>, k: nat)
    requires |ls| > 0 && |junk| == itsize > 0 && k < |ls|
    requires var s := Exec(itsize, ls, junk, events); s.phase == Inspecting && MayWrite(s.ts[k], itsize)
    ensures var s := Exec(itsize, ls, junk, events);
            var l := s.ts[k].offset - s.ts[k].done + s.ts[k].i;
            0 <= l < itsize == |s.written| && s.written[l] == 0 && Enabled(itsize, s, Write(k))
  {
    InvHolds(itsize, ls, junk, events);
    var s := Exec(itsize, ls, junk, events);
    assert ThreadInv(itsize, ls, s, k);
    WriteInBounds(itsize, ls, s, k);
    assert SlotInv(itsize, ls, s, Prefix(ls, k) + Progress(s.ts[k]));
  }

  /** Over all rounds each flattened iteration is executed at most once, and once all are through
      exactly once. */
  lemma {:induction false} EachIterationOnce(itsize: nat, ls: seq<Loop>, junk: seq<int>, events: seq<Event>, g: nat)
    requires |ls| > 0 && |junk| == itsize > 0 && g < Total(ls)
    ensures var s := Exec(itsize, ls, junk, events);
            |s.ran| == Total(ls) && s.ran[g] <= 1 && (s.phase == Over ==> s.ran[g] == 1)
  {
    InvHolds(itsize, ls, junk, events);
    assert RanInv(itsize, ls, Exec(itsize, ls, junk, events), g);
  }

  /** The block never stops short: until it is over, some event is enabled. */
  lemma {:induction false} NotStuck(itsize: nat, ls: seq<Loop>, junk: seq<int>, events: seq<Event>) returns (e: Event)
    requires |ls| > 0 && |junk| == itsize > 0 && Exec(itsize, ls, junk, events).phase != Over
    ensures Enabled(itsize, Exec(itsize, ls, junk, events), e)
  {
    InvHolds(itsize, ls, junk, events);
    var s := Exec(itsize, ls, junk, events);
    if s.phase == Inspecting {
      if k: nat :| k < |ls| && s.ts[k].open {
        if MayWrite(s.ts[k], itsize) {
          WritesAreSafe(itsize, ls, junk, events, k);
          e := Write(k);
        } else {
          e := Close(k);
        }
      } else {
        e := Barrier;
      }
    } else if k: nat :| k < |ls| && MayExecute(s.ts[k], itsize) {
      assert ThreadInv(itsize, ls, s, k);
      e := Execute(k);
    } else {
      e := Next;
    }
  }

  // ----- the method is a run

  /** The state after thread k, at slot at, has written m iterations and nobody else has moved. */
  ghost function Wrote(ls: seq<Loop>, s: State, k: nat, m: nat): (s': State)
    requires k < |s.ts| == |ls|
  {
    var th := s.ts[k];
    var at := th.offset - th.done;
    s.(itvalue := Values(s.itvalue, at, m, th.start + th.myDone), source := Sources(s.source, at, m, ls[k].src),
       written := seq(|s.written|, l requires 0 <= l < |s.written| => s.written[l] + if at <= l < at + m then 1 else 0),
       ts := s.ts[k := th.(i := m)])
  }

  lemma {:induction false} WriteOneMore(itsize: nat, ls: seq<Loop>, s: State, k: nat, m: nat)
    requires Shape(itsize, ls, s) && k < |ls| && ThreadInv(itsize, ls, s, k) && s.phase == Inspecting
    requires var th := s.ts[k]; th.open && th.i == 0 && m < Taken(th.size - th.myDone, th.offset - th.done, itsize)
    ensures Enabled(itsize, Wrote(ls, s, k, m), Write(k))
    ensures Apply(itsize, ls, Wrote(ls, s, k, m), Write(k)) == Wrote(ls, s, k, m + 1)
  {
    var th, d, d' := s.ts[k], Wrote(ls, s, k, m), Wrote(ls, s, k, m + 1);
    var l := th.offset - th.done + m;
    assert d.itvalue[l := th.start + th.myDone + m] == d'.itvalue;
    assert d.source[l := ls[k].src] == d'.source;
    assert d.written[l := d.written[l] + 1] == d'.written;
    assert d.ts[k := d.ts[k].(i := m + 1)] == d'.ts;
  }

  lemma {:induction false} WroteNone(ls: seq<Loop>, s: State, k: nat)
    requires k < |s.ts| == |ls| && s.ts[k].i == 0
    ensures Wrote(ls, s, k, 0) == s
  {
    var d := Wrote(ls, s, k, 0);
    assert d.ts == s.ts && d.written == s.written && d.itvalue == s.itvalue && d.source == s.source;
  }

  lemma {:induction false} ExecSnoc(itsize: nat, ls: seq<Loop>, junk: seq<int>, events: seq<Event>, e: Event)
    requires |ls| > 0
    ensures var s := Exec(itsize, ls, junk, events);
            Exec(itsize, ls, junk, events + [e]) == if Enabled(itsize, s, e) then Apply(itsize, ls, s, e) else s
  {
    assert (events + [e])[..|events|] == events;
  }

  lemma {:induction false} WritesOneMore(itsize: nat, ls: seq<Loop>, junk: seq<int>, events: seq<Event>, k: nat, m: nat,
                                         d: State, d': State)
    requires |ls| > 0 && Exec(itsize, ls, junk, events + seq(m, _ => Write(k))) == d
    requires Enabled(itsize, d, Write(k)) && |d.ts| == |ls| && Apply(itsize, ls, d, Write(k)) == d'
    ensures Exec(itsize, ls, junk, events + seq(m + 1, _ => Write(k))) == d'
  {
    ExecSnoc(itsize, ls, junk, events + seq(m, _ => Write(k)), Write(k));
    assert events + seq(m + 1, _ => Write(k)) == events + seq(m, _ => Write(k)) + [Write(k)];
  }

  lemma {:induction false} WritesAlone(itsize: nat, ls: seq<Loop>, junk: seq<int>, events: seq<Event>, k: nat, m: nat,
                                       s: State)
    requires Shape(itsize, ls, s) && s == Exec(itsize, ls, junk, events)
    requires k < |ls| && ThreadInv(itsize, ls, s, k) && s.phase == Inspecting && s.ts[k].open && s.ts[k].i == 0
    requires m <= Taken(s.ts[k].size - s.ts[k].myDone, s.ts[k].offset - s.ts[k].done, itsize)
    ensures Exec(itsize, ls, junk, events + seq(m, _ => Write(k))) == Wrote(ls, s, k, m)
  {
    if m == 0 {
      assert events + seq(0, _ => Write(k)) == events;
      WroteNone(ls, s, k);
    } else {
      WritesAlone(itsize, ls, junk, events, k, m - 1, s);
      WriteOneMore(itsize, ls, s, k, m - 1);
      WritesOneMore(itsize, ls, junk, events, k, m - 1, Wrote(ls, s, k, m - 1), Wrote(ls, s, k, m));
    }
  }

  /** The state after thread k has inspected and nobody else has moved. */
  ghost function Inspected(itsize: nat, ls: seq<Loop>, s: State, k: nat): (s': State)
    requires k < |s.ts| == |ls|
  {
    var th := s.ts[k];
    var n := Taken(th.size - th.myDone, th.offset - th.done, itsize);
    Wrote(ls, s, k, n).(
      ts := s.ts[k := th.(myDone := th.myDone + n, offset := th.offset + n, i := 0, open := false)])
  }

  lemma {:induction false} CloseAfter(itsize: nat, ls: seq<Loop>, s: State, k: nat, n: nat)
    requires Shape(itsize, ls, s) && k < |ls| && ThreadInv(itsize, ls, s, k)
    requires s.phase == Inspecting && s.ts[k].open && s.ts[k].i == 0
    requires n == Taken(s.ts[k].size - s.ts[k].myDone, s.ts[k].offset - s.ts[k].done, itsize)
    ensures Enabled(itsize, Wrote(ls, s, k, n), Close(k))
    ensures Apply(itsize, ls, Wrote(ls, s, k, n), Close(k)) == Inspected(itsize, ls, s, k)
  {
    var th := s.ts[k].(i := n);
    assert Wrote(ls, s, k, n).ts[k] == th && !MayWrite(th, itsize);
    assert s.ts[k := th][k := th.(myDone := th.myDone + n, offset := th.offset + n, i := 0, open := false)]
        == Inspected(itsize, ls, s, k).ts;
  }

  lemma {:induction false} InspectFrom(itsize: nat, ls: seq<Loop>, junk: seq<int>, events: seq<Event>, k: nat, n: nat,
                                       s: State)
    requires Shape(itsize, ls, s) && s == Exec(itsize, ls, junk, events)
    requires k < |ls| && ThreadInv(itsize, ls, s, k) && s.phase == Inspecting && s.ts[k].open && s.ts[k].i == 0
    requires n == Taken(s.ts[k].size - s.ts[k].myDone, s.ts[k].offset - s.ts[k].done, itsize)
    ensures Exec(itsize, ls, junk, events + seq(n, _ => Write(k)) + [Close(k)]) == Inspected(itsize, ls, s, k)
  {
    WritesAlone(itsize, ls, junk, events, k, n, s);
    CloseAfter(itsize, ls, s, k, n);
    ExecSnoc(itsize, ls, junk, events + seq(n, _ => Write(k)), Close(k));
  }

  /** A call of Inspect2 is a run: in every state in which thread k is about to inspect, its writes
      and its close, uninterrupted, leave the slots and the thread as the method does. */
  lemma {:induction false} InspectIsRun(itsize: nat, ls: seq<Loop>, junk: seq<int>, events: seq<Event>, k: nat)
    requires |ls| > 0 && |junk| == itsize > 0 && k < |ls|
    requires var s := Exec(itsize, ls, junk, events); s.phase == Inspecting && s.ts[k].open && s.ts[k].i == 0
    ensures var s := Exec(itsize, ls, junk, events);
            var n := Taken(s.ts[k].size - s.ts[k].myDone, s.ts[k].offset - s.ts[k].done, itsize);
            Exec(itsize, ls, junk, events + seq(n, _ => Write(k)) + [Close(k)]) == Inspected(itsize, ls, s, k)
  {
    var s := Exec(itsize, ls, junk, events);
    InvHolds(itsize, ls, junk, events);
    assert ThreadInv(itsize, ls, s, k);
    InspectFrom(itsize, ls, junk, events, k, Taken(s.ts[k].size - s.ts[k].myDone, s.ts[k].offset - s.ts[k].done, itsize), s);
  }
}
