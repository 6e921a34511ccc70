/** Exclusive marking on the GPU in three phases with barriers between them: every thread stores
    its id on its items, then lowers them to its id, then asks whether it owns them all. */
module Exclusive {

  /** The lock words after one thread's first marking, and after its second. */
  ghost function Marked(lk: seq<int>, a: seq<nat>, id: int): (r: seq<int>)
  {
    seq(|lk|, x requires 0 <= x < |lk| => if x in a then id else lk[x])
  }

  ghost function Lowered(lk: seq<int>, a: seq<nat>, id: int): (r: seq<int>)
  {
    seq(|lk|, x requires 0 <= x < |lk| => if x in a && id < lk[x] then id else lk[x])
  }

  /** Whether every item holds the id. */
  ghost predicate HoldsAll(lk: seq<int>, a: seq<nat>, id: int)
  {
    forall i :: 0 <= i < |a| ==> a[i] < |lk| && lk[a[i]] == id
  }

  class ExclusiveLocks {
    const lk: array<int>

    constructor (nitems: nat)
      ensures fresh(lk) && lk.Length == nitems
    {
      lk := new int[nitems];
    }

    method MarkP1(a: seq<nat>, id: int)
      requires forall i :: 0 <= i < |a| ==> a[i] < lk.Length
      modifies lk
      ensures lk[..] == Marked(old(lk[..]), a, id)
    {
      for i := 0 to |a|
        invariant forall x :: 0 <= x < lk.Length ==> lk[x] == if x in a[..i] then id else old(lk[x])
      {
        assert a[..i + 1] == a[..i] + [a[i]];
        lk[a[i]] := id;
      }
      assert a[..|a|] == a;
    }

    method MarkP2(a: seq<nat>, id: int)
      requires forall i :: 0 <= i < |a| ==> a[i] < lk.Length
      modifies lk
      ensures lk[..] == Lowered(old(lk[..]), a, id)
    {
      for i := 0 to |a|
        invariant forall x :: 0 <= x < lk.Length ==>
                    lk[x] == if x in a[..i] && id < old(lk[x]) then id else old(lk[x])
      {
        assert a[..i + 1] == a[..i] + [a[i]];
        if lk[a[i]] != id {
          if id < lk[a[i]] { lk[a[i]] := id; }
        }
      }
      assert a[..|a|] == a;
    }

    method Owns(a: seq<nat>, id: int) returns (r: bool)
      requires forall i :: 0 <= i < |a| ==> a[i] < lk.Length
      ensures r <==> HoldsAll(lk[..], a, id)
    {
      for i := 0 to |a|
        invariant forall j :: 0 <= j < i ==> lk[a[j]] == id
      {
        if lk[a[i]] != id { return false; }
      }
      r := true;
    }
  }

  // ----- all interleavings

  /** What a thread asks for. */
  datatype Request = Request(id: int, items: seq<nat>)

  /** Before item i of a phase (in the second, before the load or before the minimum), at a barrier,
      or with its answer. */
  datatype PC = Mark1(i: nat) | Load2(i: nat) | Min2(i: nat) | Own(i: nat) | Answer(owns: bool)

  datatype Phase = One | Two | Three

  datatype State = State(phase: Phase, lk: seq<int>, pc: seq<PC>)

  datatype Event = Step(t: nat) | Barrier

  /** A thread that is through with the phase waits at its barrier. */
  predicate Through(phase: Phase, r: Request, c: PC)
  {
    match phase
    case One => c.Mark1? && c.i >= |r.items|
    case Two => c.Load2? && c.i >= |r.items|
    case Three => c.Answer?
  }

  ghost predicate Enabled(rs: seq<Request>, s: State, e: Event)
  {
    && |s.pc| == |rs|
    && match e
       case Step(t) => t < |rs| && !Through(s.phase, rs[t], s.pc[t])
       case Barrier => s.phase != Three && forall t :: 0 <= t < |rs| ==> Through(s.phase, rs[t], s.pc[t])
  }

  ghost predicate Fits(n: nat, rs: seq<Request>)
  {
    forall t, i :: 0 <= t < |rs| && 0 <= i < |rs[t].items| ==> rs[t].items[i] < n
  }

  function Lower(a: int, b: int): (m: int) { if b < a then b else a }

  ghost function Advance(s: State, t: nat, r: Request): (s': State)
    requires t < |s.pc|
  {
    match s.pc[t]
    case Mark1(i) =>
      if i < |r.items| && r.items[i] < |s.lk|
      then s.(lk := s.lk[r.items[i] := r.id], pc := s.pc[t := Mark1(i + 1)]) else s
    case Load2(i) =>
      if i < |r.items| && r.items[i] < |s.lk|
      then s.(pc := s.pc[t := if s.lk[r.items[i]] != r.id then Min2(i) else Load2(i + 1)]) else s
    case Min2(i) =>
      if i < |r.items| && r.items[i] < |s.lk|
      then s.(lk := s.lk[r.items[i] := Lower(s.lk[r.items[i]], r.id)], pc := s.pc[t := Load2(i + 1)]) else s
    case Own(i) =>
      if i >= |r.items| then s.(pc := s.pc[t := Answer(true)])
      else if r.items[i] >= |s.lk| then s
      else s.(pc := s.pc[t := if s.lk[r.items[i]] != r.id then Answer(false) else Own(i + 1)])
    case Answer(_) => s
  }

  ghost function Apply(rs: seq<Request>, s: State, e: Event): (s': State)
    requires Enabled(rs, s, e)
  {
    match e
    case Step(t) => Advance(s, t, rs[t])
    case Barrier =>
      if s.phase == One then State(Two, s.lk, seq(|s.pc|, _ => Load2(0)))
      else State(Three, s.lk, seq(|s.pc|, _ => Own(0)))
  }

  /** before is what the lock words hold at first. */
  ghost function Exec(rs: seq<Request>, before: seq<int>, events: seq<Event>): (s: State)
  {
    if events == [] then State(One, before, seq(|rs|, _ => Mark1(0))) else
    var s, e := Exec(rs, before, events[..|events| - 1]), events[|events| - 1];
    if Enabled(rs, s, e) then Apply(rs, s, e) else s
  }

  // ----- the invariant

  ghost predicate Claims(r: Request, x: nat) { x in r.items }

  ghost predicate ClaimedBy(rs: seq<Request>, x: nat, id: int)
  {
    exists t :: 0 <= t < |rs| && Claims(rs[t], x) && rs[t].id == id
  }

  /** The least id that claims an item. */
  ghost predicate IsLeast(rs: seq<Request>, x: nat, id: int)
  {
    ClaimedBy(rs, x, id) && forall t :: 0 <= t < |rs| && Claims(rs[t], x) ==> id <= rs[t].id
  }

  /** How many of its items a thread has been through in this phase. */
  function Seen(c: PC): (n: nat) { if c.Answer? then 0 else c.i }

  ghost predicate PcInv(phase: Phase, r: Request, c: PC)
  {
    && (phase == One ==> c.Mark1?) && (phase == Two ==> c.Load2? || c.Min2?) && (phase == Three ==> c.Own? || c.Answer?)
    && Seen(c) <= |r.items| && (c.Min2? ==> c.i < |r.items|)
  }

  /** First phase: a stored word holds a claimant. Second: every claimed word does, and it is at or
      below each id that has been through. Third: it is the least. */
  ghost predicate WordInv(rs: seq<Request>, s: State, x: nat)
    requires x < |s.lk| && |s.pc| == |rs|
  {
    match s.phase
    case One =>
      forall t :: 0 <= t < |rs| && s.pc[t].Mark1? && s.pc[t].i <= |rs[t].items| && x in rs[t].items[..s.pc[t].i]
        ==> ClaimedBy(rs, x, s.lk[x])
    case Two =>
      && (forall t :: 0 <= t < |rs| && Claims(rs[t], x) ==> ClaimedBy(rs, x, s.lk[x]))
      && (forall t :: 0 <= t < |rs| && Seen(s.pc[t]) <= |rs[t].items| && x in rs[t].items[..Seen(s.pc[t])]
            ==> s.lk[x] <= rs[t].id)
    case Three =>
      forall t :: 0 <= t < |rs| && Claims(rs[t], x) ==> IsLeast(rs, x, s.lk[x])
  }

  /** What the third phase has found. */
  ghost predicate AnswerInv(lk: seq<int>, r: Request, c: PC)
    requires forall i :: 0 <= i < |r.items| ==> r.items[i] < |lk|
  {
    match c
    case Own(i) => forall j :: 0 <= j < i && j < |r.items| ==> lk[r.items[j]] == r.id
    case Answer(owns) => owns <==> forall i :: 0 <= i < |r.items| ==> lk[r.items[i]] == r.id
    case _ => true
  }

  ghost predicate Inv(n: nat, rs: seq<Request>, s: State)
  {
    && Fits(n, rs) && |s.lk| == n && |s.pc| == |rs|
    && (forall t :: 0 <= t < |rs| ==> PcInv(s.phase, rs[t], s.pc[t]))
    && (forall x: nat :: x < n ==> WordInv(rs, s, x))
    && (forall t :: 0 <= t < |rs| ==> AnswerInv(s.lk, rs[t], s.pc[t]))
  }

  lemma {:induction false} StepKeepsWord(n: nat, rs: seq<Request>, s: State, t: nat, x: nat)
    requires Fits(n, rs) && |s.lk| == n && |s.pc| == |rs| && x < n && WordInv(rs, s, x)
    requires t < |rs| && !Through(s.phase, rs[t], s.pc[t]) && PcInv(s.phase, rs[t], s.pc[t])
    ensures WordInv(rs, Advance(s, t, rs[t]), x)
  {
    var r, c := rs[t], s.pc[t];
    var s' := Advance(s, t, r);
    if !c.Answer? && c.i < |r.items| {
      assert r.items[..c.i + 1] == r.items[..c.i] + [r.items[c.i]];
      assert r.items[c.i] in r.items;
      if r.items[c.i] == x { assert Claims(r, x) && ClaimedBy(rs, x, r.id); }
    }
  }

  lemma {:induction false} BarrierKeepsWord(n: nat, rs: seq<Request>, s: State, x: nat)
    requires Inv(n, rs, s) && Enabled(rs, s, Barrier) && x < n
    ensures WordInv(rs, Apply(rs, s, Barrier), x)
  {
    assert WordInv(rs, s, x);
    forall t | 0 <= t < |rs| && Claims(rs[t], x)
      ensures if s.phase == One then ClaimedBy(rs, x, s.lk[x]) else ClaimedBy(rs, x, s.lk[x]) && s.lk[x] <= rs[t].id
    {
      assert PcInv(s.phase, rs[t], s.pc[t]) && Through(s.phase, rs[t], s.pc[t]);
      assert rs[t].items[..s.pc[t].i] == rs[t].items;
    }
  }

  lemma {:induction false} StepKeepsAnswer(n: nat, rs: seq<Request>, s: State, t: nat, u: nat)
    requires Fits(n, rs) && |s.lk| == n && |s.pc| == |rs| && t < |rs| && u < |rs|
    requires !Through(s.phase, rs[t], s.pc[t]) && PcInv(s.phase, rs[t], s.pc[t]) && PcInv(s.phase, rs[u], s.pc[u])
    requires AnswerInv(s.lk, rs[u], s.pc[u])
    ensures var s' := Advance(s, t, rs[t]); AnswerInv(s'.lk, rs[u], s'.pc[u])
  {
    var r, c := rs[t], s.pc[t];
    if c.Own? && u == t {
      if c.i < |r.items| { assert r.items[c.i] in r.items; }
    }
  }

  lemma {:induction false} InvHolds(n: nat, rs: seq<Request>, before: seq<int>, events: seq<Event>)
    requires Fits(n, rs) && |before| == n
    ensures Inv(n, rs, Exec(rs, before, events))
  {
    if events != [] {
      var s, e := Exec(rs, before, events[..|events| - 1]), events[|events| - 1];
      InvHolds(n, rs, before, events[..|events| - 1]);
      if Enabled(rs, s, e) {
        var s' := Apply(rs, s, e);
        if e.Step? {
          assert PcInv(s.phase, rs[e.t], s.pc[e.t]);
          forall u | 0 <= u < |rs| ensures PcInv(s'.phase, rs[u], s'.pc[u]) { assert PcInv(s.phase, rs[u], s.pc[u]); }
          forall x: nat | x < n ensures WordInv(rs, s', x) { StepKeepsWord(n, rs, s, e.t, x); }
          forall u | 0 <= u < |rs| ensures AnswerInv(s'.lk, rs[u], s'.pc[u]) {
            assert PcInv(s.phase, rs[u], s.pc[u]) && AnswerInv(s.lk, rs[u], s.pc[u]);
            StepKeepsAnswer(n, rs, s, e.t, u);
          }
        } else {
          forall x: nat | x < n ensures WordInv(rs, s', x) { BarrierKeepsWord(n, rs, s, x); }
        }
      }
    }
  }

  // ----- what owning means

  ghost predicate DistinctIds(rs: seq<Request>)
  {
    forall t, u :: 0 <= t < u < |rs| ==> rs[t].id != rs[u].id
  }

  /** After the marking every claimed word is its least claimant. */
  lemma {:induction false} WordsAreLeast(n: nat, rs: seq<Request>, before: seq<int>, events: seq<Event>, t: nat, x: nat)
    requires Fits(n, rs) && |before| == n && t < |rs| && x in rs[t].items && Exec(rs, before, events).phase == Three
    ensures x < |Exec(rs, before, events).lk| && IsLeast(rs, x, Exec(rs, before, events).lk[x])
  {
    InvHolds(n, rs, before, events);
    assert Claims(rs[t], x);
    assert WordInv(rs, Exec(rs, before, events), x);
  }

  /** A thread is told it owns its items exactly when it is the least claimant of each. */
  lemma {:induction false} OwnsIffLeast(n: nat, rs: seq<Request>, before: seq<int>, events: seq<Event>, t: nat)
    requires Fits(n, rs) && |before| == n && t < |rs|
    requires var s := Exec(rs, before, events); t < |s.pc| && s.pc[t].Answer?
    ensures Exec(rs, before, events).pc[t].owns <==> forall x :: x in rs[t].items ==> IsLeast(rs, x, rs[t].id)
  {
    InvHolds(n, rs, before, events);
    var s := Exec(rs, before, events);
    assert PcInv(s.phase, rs[t], s.pc[t]) && AnswerInv(s.lk, rs[t], s.pc[t]);
    forall x | x in rs[t].items ensures s.lk[x] == rs[t].id <==> IsLeast(rs, x, rs[t].id) {
      WordsAreLeast(n, rs, before, events, t, x);
      assert Claims(rs[t], x);
      LeastUnique(rs, x, s.lk[x], rs[t].id);
    }
  }

  lemma {:induction false} LeastUnique(rs: seq<Request>, x: nat, a: int, b: int)
    requires IsLeast(rs, x, a)
    ensures IsLeast(rs, x, b) <==> a == b
  {
  }

  /** Owners hold disjoint items. */
  lemma {:induction false} OwnersDisjoint(n: nat, rs: seq<Request>, before: seq<int>, events: seq<Event>,
                                          t: nat, u: nat, x: nat)
    requires Fits(n, rs) && |before| == n && t < |rs| && u < |rs| && t != u && DistinctIds(rs)
    requires var s := Exec(rs, before, events);
             |s.pc| == |rs| && s.pc[t] == Answer(true) && s.pc[u] == Answer(true)
    ensures !(x in rs[t].items && x in rs[u].items)
  {
    InvHolds(n, rs, before, events);
    var s := Exec(rs, before, events);
    assert AnswerInv(s.lk, rs[t], s.pc[t]) && AnswerInv(s.lk, rs[u], s.pc[u]);
  }

  /** The thread of the smallest id is always told it owns its items. */
  lemma {:induction false} SmallestOwns(n: nat, rs: seq<Request>, before: seq<int>, events: seq<Event>, t: nat)
    requires Fits(n, rs) && |before| == n && t < |rs|
    requires forall u :: 0 <= u < |rs| ==> rs[t].id <= rs[u].id
    requires var s := Exec(rs, before, events); t < |s.pc| && s.pc[t].Answer?
    ensures Exec(rs, before, events).pc[t].owns
  {
    OwnsIffLeast(n, rs, before, events, t);
    forall x | x in rs[t].items ensures IsLeast(rs, x, rs[t].id) {
      assert Claims(rs[t], x);
    }
  }

  // ----- the methods are runs

  /** m uninterrupted steps of thread t. */
  ghost function Alone(rs: seq<Request>, s: State, t: nat, m: nat): (s': State)
  {
    if m == 0 then s else
    var d := Alone(rs, s, t, m - 1);
    if Enabled(rs, d, Step(t)) then Apply(rs, d, Step(t)) else d
  }

  lemma {:induction false} AloneIsRun(rs: seq<Request>, before: seq<int>, events: seq<Event>, t: nat, m: nat)
    ensures Exec(rs, before, events + seq(m, _ => Step(t))) == Alone(rs, Exec(rs, before, events), t, m)
  {
    if m == 0 {
      assert events + [] == events;
    } else {
      AloneIsRun(rs, before, events, t, m - 1);
      assert (events + seq(m, _ => Step(t)))[..|events| + m - 1] == events + seq(m - 1, _ => Step(t));
    }
  }

  lemma {:induction false} MarkOne(lk: seq<int>, a: seq<nat>, m: nat, id: int)
    requires m < |a| && a[m] < |lk|
    ensures Marked(lk, a[..m + 1], id) == Marked(lk, a[..m], id)[a[m] := id]
  {
    assert a[..m + 1] == a[..m] + [a[m]];
  }

  lemma {:induction false} MarkSteps(rs: seq<Request>, s: State, t: nat, m: nat)
    requires Fits(|s.lk|, rs) && |s.pc| == |rs| && t < |rs| && m <= |rs[t].items|
    requires s.phase == One && s.pc[t] == Mark1(0)
    ensures Alone(rs, s, t, m) == s.(lk := Marked(s.lk, rs[t].items[..m], rs[t].id), pc := s.pc[t := Mark1(m)])
  {
    if m == 0 {
      assert Marked(s.lk, rs[t].items[..0], rs[t].id) == s.lk && s.pc[t := Mark1(0)] == s.pc;
    } else {
      MarkSteps(rs, s, t, m - 1);
      MarkOne(s.lk, rs[t].items, m - 1, rs[t].id);
    }
  }

  /** A call of MarkP1 is a run of uninterrupted steps of its thread. */
  lemma {:induction false} MarkP1IsRun(n: nat, rs: seq<Request>, before: seq<int>, events: seq<Event>, t: nat)
    requires Fits(n, rs) && |before| == n && t < |rs|
    requires var s := Exec(rs, before, events); s.phase == One && t < |s.pc| && s.pc[t] == Mark1(0)
    ensures var s := Exec(rs, before, events);
            Exec(rs, before, events + seq(|rs[t].items|, _ => Step(t))) ==
            s.(lk := Marked(s.lk, rs[t].items, rs[t].id), pc := s.pc[t := Mark1(|rs[t].items|)])
  {
    InvHolds(n, rs, before, events);
    AloneIsRun(rs, before, events, t, |rs[t].items|);
    MarkSteps(rs, Exec(rs, before, events), t, |rs[t].items|);
    assert rs[t].items[..|rs[t].items|] == rs[t].items;
  }

  lemma {:induction false} LowerOne(lk: seq<int>, a: seq<nat>, m: nat, id: int)
    requires m < |a| && a[m] < |lk|
    ensures var r := Lowered(lk, a[..m], id); Lowered(lk, a[..m + 1], id) == r[a[m] := Lower(r[a[m]], id)]
  {
    assert a[..m + 1] == a[..m] + [a[m]];
  }

  /** The load and, unless it finds the id, the minimum. */
  lemma {:induction false} LowerItem(rs: seq<Request>, s: State, t: nat, i: nat)
    requires |s.pc| == |rs| && t < |rs| && i < |rs[t].items| && rs[t].items[i] < |s.lk|
    requires s.phase == Two && s.pc[t] == Load2(i)
    ensures var x, r := rs[t].items[i], rs[t].id;
            var s' := s.(lk := s.lk[x := Lower(s.lk[x], r)], pc := s.pc[t := Load2(i + 1)]);
            if s.lk[x] == r then Alone(rs, s, t, 1) == s' else Alone(rs, s, t, 2) == s'
  {
    var x := rs[t].items[i];
    assert Alone(rs, s, t, 1) == Apply(rs, s, Step(t));
    if s.lk[x] == rs[t].id { assert s.lk[x := s.lk[x]] == s.lk; }
  }

  lemma {:induction false} AloneAdds(rs: seq<Request>, s: State, t: nat, a: nat, b: nat)
    ensures Alone(rs, s, t, a + b) == Alone(rs, Alone(rs, s, t, a), t, b)
  {
    if b > 0 { AloneAdds(rs, s, t, a, b - 1); }
  }

  lemma {:induction false} LowerSteps(rs: seq<Request>, s: State, t: nat, m: nat) returns (steps: nat)
    requires Fits(|s.lk|, rs) && |s.pc| == |rs| && t < |rs| && m <= |rs[t].items|
    requires s.phase == Two && s.pc[t] == Load2(0)
    ensures Alone(rs, s, t, steps) == s.(lk := Lowered(s.lk, rs[t].items[..m], rs[t].id), pc := s.pc[t := Load2(m)])
  {
    if m == 0 {
      steps := 0;
      assert Lowered(s.lk, rs[t].items[..0], rs[t].id) == s.lk && s.pc[t := Load2(0)] == s.pc;
    } else {
      var k := LowerSteps(rs, s, t, m - 1);
      var d := Alone(rs, s, t, k);
      LowerItem(rs, d, t, m - 1);
      LowerOne(s.lk, rs[t].items, m - 1, rs[t].id);
      var more := if d.lk[rs[t].items[m - 1]] == rs[t].id then 1 else 2;
      AloneAdds(rs, s, t, k, more);
      steps := k + more;
    }
  }

  /** So is a call of MarkP2, with one step or two for an item. */
  lemma {:induction false} MarkP2IsRun(n: nat, rs: seq<Request>, before: seq<int>, events: seq<Event>, t: nat)
    returns (steps: nat)
    requires Fits(n, rs) && |before| == n && t < |rs|
    requires var s := Exec(rs, before, events); s.phase == Two && t < |s.pc| && s.pc[t] == Load2(0)
    ensures var s := Exec(rs, before, events);
            Exec(rs, before, events + seq(steps, _ => Step(t))) ==
            s.(lk := Lowered(s.lk, rs[t].items, rs[t].id), pc := s.pc[t := Load2(|rs[t].items|)])
  {
    InvHolds(n, rs, before, events);
    steps := LowerSteps(rs, Exec(rs, before, events), t, |rs[t].items|);
    AloneIsRun(rs, before, events, t, steps);
    assert rs[t].items[..|rs[t].items|] == rs[t].items;
  }

  lemma {:induction false} OwnSteps(rs: seq<Request>, s: State, t: nat, m: nat)
    requires Fits(|s.lk|, rs) && |s.pc| == |rs| && t < |rs| && m <= |rs[t].items|
    requires s.phase == Three && s.pc[t] == Own(0)
    ensures Alone(rs, s, t, m) ==
            s.(pc := s.pc[t := if HoldsAll(s.lk, rs[t].items[..m], rs[t].id) then Own(m) else Answer(false)])
  {
    var a := rs[t].items;
    if m == 0 {
      assert s.pc[t := Own(0)] == s.pc;
    } else {
      OwnSteps(rs, s, t, m - 1);
      assert a[..m] == a[..m - 1] + [a[m - 1]];
      assert a[m - 1] < |s.lk|;
      assert HoldsAll(s.lk, a[..m], rs[t].id) <==> HoldsAll(s.lk, a[..m - 1], rs[t].id) && s.lk[a[m - 1]] == rs[t].id;
    }
  }

  /** And a call of Owns, which finds the answer of the third phase. */
  lemma {:induction false} OwnsIsRun(n: nat, rs: seq<Request>, before: seq<int>, events: seq<Event>, t: nat)
    requires Fits(n, rs) && |before| == n && t < |rs|
    requires var s := Exec(rs, before, events); s.phase == Three && t < |s.pc| && s.pc[t] == Own(0)
    ensures var s := Exec(rs, before, events);
            Exec(rs, before, events + seq(|rs[t].items| + 1, _ => Step(t))) ==
            s.(pc := s.pc[t := Answer(HoldsAll(s.lk, rs[t].items, rs[t].id))])
  {
    InvHolds(n, rs, before, events);
    AloneIsRun(rs, before, events, t, |rs[t].items| + 1);
    OwnSteps(rs, Exec(rs, before, events), t, |rs[t].items|);
    assert rs[t].items[..|rs[t].items|] == rs[t].items;
  }
}
