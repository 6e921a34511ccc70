/** The wake and join tree of the thread pool: each woken thread wakes the two halves of the range
    it was given, works, waits for both, and reports; a run belongs to the master, thread 0. */
module ThreadPool {

  // ----- the tree

  function Mid(b: nat, e: nat): (m: nat)
    requires b < e
    ensures b < m <= e
    ensures b + 1 < e ==> m < e
  {
    b + (1 + e - b) / 2
  }

  /** Thread x of the subtree of t, which is [t, e), has the subtree [x, End(t, e, x)). */
  ghost function End(t: nat, e: nat, x: nat): (r: nat)
    requires t <= x < e
    ensures x < r <= e
    decreases e - t
  {
    if x == t then e
    else if x < Mid(t + 1, e) then End(t + 1, Mid(t + 1, e), x) else End(Mid(t + 1, e), e, x)
  }

  ghost function Parent(t: nat, e: nat, x: nat): (p: nat)
    requires t < x < e
    ensures t <= p < x
    decreases e - t
  {
    var m := Mid(t + 1, e);
    if x == t + 1 || x == m then t else if x < m then Parent(t + 1, m, x) else Parent(m, e, x)
  }

  /** x heads one half of the range of p, whose subtree ends at pe; its own ends at xe. */
  ghost predicate Halves(p: nat, pe: nat, x: nat, xe: nat)
  {
    && p < x < pe
    && ((x == p + 1 && xe == Mid(p + 1, pe)) || (x == Mid(p + 1, pe) && xe == pe))
  }

  /** A thread heads one half of its parent's range. */
  lemma {:induction false} ParentHalves(t: nat, e: nat, x: nat)
    requires t < x < e
    ensures Halves(Parent(t, e, x), End(t, e, Parent(t, e, x)), x, End(t, e, x))
    decreases e - t
  {
    var m := Mid(t + 1, e);
    if x == t + 1 {
      assert End(t + 1, m, x) == m;
    } else if x == m {
      assert End(m, e, x) == e;
    } else if x < m {
      ParentHalves(t + 1, m, x);
    } else {
      ParentHalves(m, e, x);
    }
  }

  /** The heads of both halves have that thread as their parent. */
  lemma {:induction false} HalvesParent(t: nat, e: nat, p: nat)
    requires t <= p < e && p + 1 < End(t, e, p)
    ensures Parent(t, e, p + 1) == p
    ensures Mid(p + 1, End(t, e, p)) < End(t, e, p) ==> Parent(t, e, Mid(p + 1, End(t, e, p))) == p
    decreases e - t
  {
    var m := Mid(t + 1, e);
    if p == t {
    } else if p < m {
      HalvesParent(t + 1, m, p);
    } else {
      HalvesParent(m, e, p);
    }
  }

  // ----- the machine

  /** Before the wait, the range, the clearing of done and the fast release of the first child, the
      same of the second, before the work, the spins on the children, the store of done. */
  datatype PC = Wait | Put1 | Clear1 | Release1 | Put2 | Clear2 | Release2 | Work | Join1 | Join2 | Finish

  datatype Box = Box(wbegin: nat, wend: nat, done: bool, release: bool)

  /** fast is the thread's own mode. History: fin, whether it finished its part of the last run;
      woken and ran, how often it left its wait and did the work in all runs. */
  datatype Thread = Thread(pc: PC, fast: bool, fin: bool, woken: nat, ran: nat)

  /** An ordinary function, or the switch of burnPower and beKind to or from busy waiting. */
  datatype Task = Ordinary | SetFast(on: bool)

  /** asked is the number of threads the last run was called with, cut to those usable; burnPower
      keeps this number, although a run has at least one thread. runs is history: the sizes of
      the runs so far; mode is the mode the last one was woken in. */
  datatype State =
    State(box: seq<Box>, th: seq<Thread>, masterFast: nat, task: Task, asked: nat, mode: bool, runs: seq<nat>)

  datatype Event = Run(num: nat, task: Task) | Step(t: nat)

  function Size(n: nat, num: nat): (r: nat)
    requires n >= 1
    ensures 1 <= r <= n
  {
    var atLeastOne := if num < 1 then 1 else num;
    if atLeastOne < n then atLeastOne else n
  }

  /** The cut of burnPower. */
  function Usable(n: nat, num: nat): (r: nat) { if num < n then num else n }

  predicate Fast(s: State, t: nat)
    requires t < |s.th|
  {
    if t == 0 then s.masterFast != 0 else s.th[t].fast
  }

  predicate HasFirst(b: Box) { b.wbegin < b.wend }

  predicate HasSecond(b: Box) { b.wbegin < b.wend && Mid(b.wbegin, b.wend) < b.wend }

  function AfterFirst(b: Box): (c: PC) { if HasSecond(b) then Put2 else Work }

  predicate CanStep(s: State, t: nat)
    requires |s.box| == |s.th|
  {
    && t < |s.th|
    && var b := s.box[t];
       match s.th[t].pc
       case Wait => t != 0 && (if s.th[t].fast then b.release else !b.done)
       case Put1 => HasFirst(b) && b.wbegin < |s.box|
       case Clear1 => HasFirst(b) && b.wbegin < |s.box|
       case Release1 => HasFirst(b) && b.wbegin < |s.box|
       case Put2 => HasSecond(b) && Mid(b.wbegin, b.wend) < |s.box|
       case Clear2 => HasSecond(b) && Mid(b.wbegin, b.wend) < |s.box|
       case Release2 => HasSecond(b) && Mid(b.wbegin, b.wend) < |s.box|
       case Work => true
       case Join1 => HasFirst(b) && b.wbegin < |s.box| && s.box[b.wbegin].done
       case Join2 => HasSecond(b) && Mid(b.wbegin, b.wend) < |s.box| && s.box[Mid(b.wbegin, b.wend)].done
       case Finish => true
  }

  function Goto(s: State, t: nat, pc: PC): (s': State)
    requires t < |s.th|
  {
    s.(th := s.th[t := s.th[t].(pc := pc)])
  }

  function Advance(s: State, t: nat): (s': State)
    requires |s.box| == |s.th| && CanStep(s, t)
    ensures |s'.box| == |s.box| && |s'.th| == |s.th| && s'.runs == s.runs && s'.mode == s.mode && s'.task == s.task && s'.asked == s.asked
  {
    var b, me := s.box[t], s.th[t];
    match me.pc
    case Wait =>
      s.(th := s.th[t := me.(pc := if HasFirst(b) then Put1 else Work, woken := me.woken + 1)],
         box := if me.fast then s.box[t := b.(release := false)] else s.box)
    case Put1 =>
      var c := b.wbegin;
      Goto(s.(box := s.box[c := s.box[c].(wbegin := b.wbegin + 1, wend := Mid(b.wbegin, b.wend))]), t, Clear1)
    case Clear1 =>
      var c := b.wbegin;
      Goto(s.(box := s.box[c := s.box[c].(done := false)]), t, if Fast(s, t) then Release1 else AfterFirst(b))
    case Release1 =>
      var c := b.wbegin;
      Goto(s.(box := s.box[c := s.box[c].(release := true)]), t, AfterFirst(b))
    case Put2 =>
      var c := Mid(b.wbegin, b.wend);
      Goto(s.(box := s.box[c := s.box[c].(wbegin := c + 1, wend := b.wend)]), t, Clear2)
    case Clear2 =>
      var c := Mid(b.wbegin, b.wend);
      Goto(s.(box := s.box[c := s.box[c].(done := false)]), t, if Fast(s, t) then Release2 else Work)
    case Release2 =>
      var c := Mid(b.wbegin, b.wend);
      Goto(s.(box := s.box[c := s.box[c].(release := true)]), t, Work)
    case Work =>
      var fast := if s.task.SetFast? && t != 0 then s.task.on else me.fast;
      s.(th := s.th[t := me.(pc := if HasFirst(b) then Join1 else Finish, ran := me.ran + 1, fast := fast)])
    case Join1 => Goto(s, t, if HasSecond(b) then Join2 else Finish)
    case Join2 => Goto(s, t, Finish)
    case Finish =>
      var s' := s.(box := s.box[t := b.(done := true)], th := s.th[t := me.(pc := Wait, fin := true)]);
      if t == 0 && s.task.SetFast? then s'.(masterFast := if s.task.on then s.asked else 0) else s'
  }

  /** A run starts when none is running; in busy-waiting mode all runs have the size of the switch,
      which the source asserts; the switches come from burnPower and beKind. */
  predicate CanRun(s: State, num: nat, task: Task)
  {
    && |s.box| == |s.th| > 0 && s.th[0].pc == Wait
    && (s.masterFast != 0 ==> Size(|s.th|, num) == s.masterFast)
    && (task.SetFast? ==> task.on == (s.masterFast == 0))
  }

  function StartRun(s: State, num: nat, task: Task): (s': State)
    requires CanRun(s, num, task)
  {
    var size := Size(|s.th|, num);
    var th := seq(|s.th|, t requires 0 <= t < |s.th| => s.th[t].(fin := false));
    State(s.box[0 := s.box[0].(wbegin := 1, wend := size)],
          th[0 := th[0].(pc := if 1 < size then Put1 else Work)],
          s.masterFast, task, Usable(|s.th|, num), s.masterFast != 0, s.runs + [size])
  }

  ghost function Exec(n: nat, events: seq<Event>): (s: State)
  {
    if events == [] then
      State(seq(n, _ => Box(0, 0, true, false)), seq(n, _ => Thread(Wait, false, false, 0, 0)), 0, Ordinary, 0, false, [])
    else
    var s, e := Exec(n, events[..|events| - 1]), events[|events| - 1];
    match e
    case Run(num, task) => if CanRun(s, num, task) then StartRun(s, num, task) else s
    case Step(t) => if |s.box| == |s.th| && CanStep(s, t) then Advance(s, t) else s
  }

  // ----- the invariant

  function Rank(pc: PC): (r: nat)
  {
    match pc
    case Wait => 0 case Put1 => 1 case Clear1 => 2 case Release1 => 3 case Put2 => 4 case Clear2 => 5
    case Release2 => 6 case Work => 7 case Join1 => 8 case Join2 => 9 case Finish => 10
  }

  /** How far a thread is in the last run. */
  function Far(th: Thread): (r: nat) { if th.fin then 11 else Rank(th.pc) }

  /** The size of the last run. */
  function Num(s: State): (n: nat)
  {
    if s.runs == [] then 0 else s.runs[|s.runs| - 1]
  }

  /** How many runs thread t belongs to. */
  ghost function Calls(runs: seq<nat>, t: nat): (n: nat)
  {
    if runs == [] then 0 else Calls(runs[..|runs| - 1], t) + (if t < runs[|runs| - 1] then 1 else 0)
  }

  ghost function NewMode(s: State): (b: bool) { if s.task.SetFast? then s.task.on else s.mode }

  /** What holds of a thread of the run: its range, once it runs, is that of the tree. */
  ghost predicate MemberInv(e: nat, mode: bool, newMode: bool, calls: nat, b: Box, th: Thread, t: nat)
  {
    && (th.fin ==> th.pc == Wait)
    && (Far(th) > 0 ==> b.wbegin == t + 1 && b.wend == e)
    && (1 <= Far(th) <= 6 || Far(th) == 8 ==> t + 1 < e)
    && (4 <= Far(th) <= 6 || Far(th) == 9 ==> t + 1 < e && Mid(t + 1, e) < e)
    && (Far(th) == 3 || Far(th) == 6 ==> mode)
    && th.ran == calls - (if Far(th) <= 7 then 1 else 0)
    && (t > 0 ==> th.woken == calls - (if Far(th) == 0 then 1 else 0))
    && (t > 0 ==> th.fast == if Far(th) <= 7 then mode else newMode)
    && (t == 0 ==> Far(th) > 0)
  }

  /** What holds of a thread outside the run. */
  ghost predicate IdleInv(calls: nat, b: Box, th: Thread, t: nat)
  {
    && th.pc == Wait && !th.fin && th.ran == calls && (t > 0 ==> b.done && !b.release && th.woken == calls && !th.fast)
  }

  ghost predicate ThreadInv(s: State, t: nat)
    requires t < |s.th| == |s.box| && Num(s) <= |s.th|
  {
    if t < Num(s)
    then MemberInv(End(0, Num(s), t), s.mode, NewMode(s), Calls(s.runs, t), s.box[t], s.th[t], t)
    else IdleInv(Calls(s.runs, t), s.box[t], s.th[t], t)
  }

  /** What holds between a woken thread and the one that wakes it, up to the ranks of the parent at
      which it has put the range, cleared done, released, and joined. */
  ghost predicate Coupled(mode: bool, parent: Thread, b: Box, th: Thread, c: nat, e: nat, put: nat, joined: nat)
  {
    && (Far(parent) > put ==> b.wbegin == c + 1 && b.wend == e)
    && (Far(parent) <= put + 1 ==> Far(th) == 0 && b.done && !b.release)
    && (Far(parent) > put + 1 ==> (b.done <==> Far(th) == 11))
    && (b.release <==> mode && Far(parent) > put + 2 && Far(th) == 0)
    && (Far(th) > 0 ==> Far(parent) > put + (if mode then 2 else 1))
    && (Far(parent) > joined ==> Far(th) == 11)
  }

  ghost predicate ChildInv(s: State, c: nat)
    requires 0 < c < Num(s) <= |s.th| == |s.box|
  {
    var p := Parent(0, Num(s), c);
    var first := c == p + 1;
    Coupled(s.mode, s.th[p], s.box[c], s.th[c], c, End(0, Num(s), c), if first then 1 else 4, if first then 8 else 9)
  }

  ghost predicate MasterInv(s: State)
  {
    && |s.th| == |s.box| && Num(s) <= |s.th| && (s.runs == [] ==> s.masterFast == 0)
    && (s.runs != [] && |s.th| > 0 ==> Num(s) == if s.asked < 1 then 1 else s.asked)
    && (Num(s) > 0 && !s.th[0].fin ==>
          s.mode == (s.masterFast != 0) && (s.masterFast != 0 ==> s.masterFast == Num(s)))
    && (Num(s) > 0 && s.th[0].fin ==> 
          s.masterFast == if !NewMode(s) then 0 else if s.task.SetFast? then s.asked else Num(s))
  }

  ghost predicate Inv(s: State)
  {
    && MasterInv(s)
    && (forall t: nat :: t < |s.th| ==> ThreadInv(s, t))
    && (forall c: nat :: 0 < c < Num(s) ==> ChildInv(s, c))
  }

  // ----- every step keeps it

  /** A step of a thread inside the run, whose own part of the invariant places it in the tree. */
  lemma {:induction false} StepIsMember(s: State, t: nat)
    requires Inv(s) && CanStep(s, t)
    ensures t < Num(s)
  {
    assert ThreadInv(s, t);
  }

  /** The box of a thread that has left its wait names its children. */
  lemma {:induction false} ChildrenOf(s: State, t: nat)
    requires Inv(s) && CanStep(s, t) && Far(s.th[t]) > 0
    ensures t < Num(s) && s.box[t].wbegin == t + 1 && s.box[t].wend == End(0, Num(s), t)
    ensures HasFirst(s.box[t]) ==> t + 1 < Num(s) && Parent(0, Num(s), t + 1) == t
    ensures HasSecond(s.box[t]) ==>
              var c := Mid(t + 1, s.box[t].wend); t + 1 < c < Num(s) && Parent(0, Num(s), c) == t
  {
    assert ThreadInv(s, t);
    if t + 1 < End(0, Num(s), t) { HalvesParent(0, Num(s), t); }
  }

  /** A step writes to its own box and to that of a child that is still asleep. */
  lemma {:induction false} WakeTouches(s: State, t: nat, u: nat)
    requires Inv(s) && CanStep(s, t) && u < |s.th| && u != t && 1 <= Far(s.th[t]) <= 6
    ensures var s' := Advance(s, t);
            && s'.th[u] == s.th[u]
            && (s'.box[u] == s.box[u] || (0 < u < Num(s) && Parent(0, Num(s), u) == t && Far(s.th[u]) == 0))
  {
    assert ThreadInv(s, t);
    ChildrenOf(s, t);
    if 0 < u < Num(s) { assert ChildInv(s, u); }
  }

  lemma {:induction false} StepTouches(s: State, t: nat, u: nat)
    requires Inv(s) && CanStep(s, t) && u < |s.th| && u != t
    ensures var s' := Advance(s, t);
            && |s'.th| == |s'.box| == |s.th| && s'.th[u] == s.th[u]
            && (s'.box[u] == s.box[u]
                || (0 < u < Num(s) && Parent(0, Num(s), u) == t && Far(s.th[u]) == 0 && 1 <= Far(s.th[t]) <= 6))
  {
    StepIsMember(s, t);
    assert ThreadInv(s, t);
    if 1 <= Far(s.th[t]) <= 6 { WakeTouches(s, t, u); }
  }

  /** The step of one thread, its place in the tree given: while it wakes one child ... */
  lemma {:induction false} OwnWakesFirst(s: State, t: nat, e: nat, calls: nat)
    requires |s.box| == |s.th| && CanStep(s, t) && t < e && 1 <= Far(s.th[t]) <= 3
    requires MemberInv(e, s.mode, NewMode(s), calls, s.box[t], s.th[t], t)
    requires t == 0 ==> s.mode == (s.masterFast != 0)
    ensures var s' := Advance(s, t); MemberInv(e, s.mode, NewMode(s), calls, s'.box[t], s'.th[t], t)
  {
  }

  /** ... or the other ... */
  lemma {:induction false} OwnWakesSecond(s: State, t: nat, e: nat, calls: nat)
    requires |s.box| == |s.th| && CanStep(s, t) && t < e && 4 <= Far(s.th[t]) <= 6
    requires MemberInv(e, s.mode, NewMode(s), calls, s.box[t], s.th[t], t)
    requires t == 0 ==> s.mode == (s.masterFast != 0)
    ensures var s' := Advance(s, t); MemberInv(e, s.mode, NewMode(s), calls, s'.box[t], s'.th[t], t)
  {
  }

  /** ... when it wakes up or works ... */
  lemma {:induction false} OwnWorks(s: State, t: nat, e: nat, calls: nat)
    requires |s.box| == |s.th| && CanStep(s, t) && t < e && (Far(s.th[t]) == 0 || Far(s.th[t]) == 7)
    requires MemberInv(e, s.mode, NewMode(s), calls, s.box[t], s.th[t], t)
    requires Far(s.th[t]) == 0 ==> s.box[t].wbegin == t + 1 && s.box[t].wend == e
    ensures var s' := Advance(s, t); MemberInv(e, s.mode, NewMode(s), calls, s'.box[t], s'.th[t], t)
  {
  }

  /** ... and when it joins. */
  lemma {:induction false} OwnJoins(s: State, t: nat, e: nat, calls: nat)
    requires |s.box| == |s.th| && CanStep(s, t) && t < e && 8 <= Far(s.th[t]) <= 10
    requires MemberInv(e, s.mode, NewMode(s), calls, s.box[t], s.th[t], t)
    ensures var s' := Advance(s, t); MemberInv(e, s.mode, NewMode(s), calls, s'.box[t], s'.th[t], t)
  {
  }

  lemma {:induction false} OwnStep(s: State, t: nat, e: nat, calls: nat)
    requires |s.box| == |s.th| && CanStep(s, t) && t < e && !s.th[t].fin
    requires MemberInv(e, s.mode, NewMode(s), calls, s.box[t], s.th[t], t)
    requires t == 0 ==> s.mode == (s.masterFast != 0)
    requires s.box[t].wbegin == t + 1 && s.box[t].wend == e
    ensures var s' := Advance(s, t); MemberInv(e, s.mode, NewMode(s), calls, s'.box[t], s'.th[t], t)
  {
    var far := Far(s.th[t]);
    if 1 <= far <= 3 { OwnWakesFirst(s, t, e, calls); }
    else if 4 <= far <= 6 { OwnWakesSecond(s, t, e, calls); }
    else if far == 0 || far == 7 { OwnWorks(s, t, e, calls); }
    else { OwnJoins(s, t, e, calls); }
  }

  /** A thread that can step is in the run and not through it; its range is set. */
  lemma {:induction false} StepperIsSet(s: State, t: nat)
    requires Inv(s) && CanStep(s, t)
    ensures t < Num(s) && !s.th[t].fin && s.box[t].wbegin == t + 1 && s.box[t].wend == End(0, Num(s), t)
    ensures t == 0 ==> s.mode == (s.masterFast != 0)
  {
    StepIsMember(s, t);
    assert ThreadInv(s, t);
    if 0 < t { assert ChildInv(s, t); }
  }

  lemma {:induction false} StepKeepsThread(s: State, t: nat, u: nat)
    requires Inv(s) && CanStep(s, t) && u < |s.th|
    ensures var s' := Advance(s, t);
            |s'.th| == |s'.box| == |s.th| && s'.runs == s.runs && Num(s') == Num(s) && ThreadInv(s', u)
  {
    assert ThreadInv(s, u);
    if u == t {
      StepperIsSet(s, t);
      var e, calls := End(0, Num(s), t), Calls(s.runs, t);
      OwnStep(s, t, e, calls);
    } else {
      StepTouches(s, t, u);
    }
  }

  /** A child moves: its parent has released it and has not joined it. */
  lemma {:induction false} ChildMoves(s: State, c: nat)
    requires Inv(s) && CanStep(s, c) && 0 < c < Num(s)
    ensures ChildInv(Advance(s, c), c)
  {
    StepperIsSet(s, c);
    assert ThreadInv(s, c) && ChildInv(s, c);
    var p := Parent(0, Num(s), c);
    assert Advance(s, c).th[p] == s.th[p];
  }

  /** A parent moves, its place in the tree given: it wakes a child that sleeps ... */
  lemma {:induction false} ParentWakes(s: State, p: nat, pe: nat, c: nat, ce: nat)
    requires |s.box| == |s.th| && p < c < |s.th| && CanStep(s, p) && 1 <= Far(s.th[p]) <= 6 && Halves(p, pe, c, ce)
    requires s.box[p].wbegin == p + 1 && s.box[p].wend == pe && Fast(s, p) == s.mode
    requires Far(s.th[p]) == 3 || Far(s.th[p]) == 6 ==> s.mode
    requires Coupled(s.mode, s.th[p], s.box[c], s.th[c], c, ce, if c == p + 1 then 1 else 4, if c == p + 1 then 8 else 9)
    ensures var s' := Advance(s, p);
            Coupled(s.mode, s'.th[p], s'.box[c], s'.th[c], c, ce, if c == p + 1 then 1 else 4, if c == p + 1 then 8 else 9)
  {
  }

  /** ... and joins one that has finished. */
  lemma {:induction false} ParentJoins(s: State, p: nat, pe: nat, c: nat, ce: nat)
    requires |s.box| == |s.th| && p < c < |s.th| && CanStep(s, p) && Halves(p, pe, c, ce)
    requires Far(s.th[p]) == 0 || 7 <= Far(s.th[p]) <= 10
    requires s.box[p].wbegin == p + 1 && s.box[p].wend == pe
    requires Coupled(s.mode, s.th[p], s.box[c], s.th[c], c, ce, if c == p + 1 then 1 else 4, if c == p + 1 then 8 else 9)
    ensures var s' := Advance(s, p);
            Coupled(s.mode, s'.th[p], s'.box[c], s'.th[c], c, ce, if c == p + 1 then 1 else 4, if c == p + 1 then 8 else 9)
  {
  }

  lemma {:induction false} ParentMoves(s: State, p: nat, c: nat)
    requires 0 < c < Num(s) <= |s.th| == |s.box| && p == Parent(0, Num(s), c) && CanStep(s, p) && !s.th[p].fin
    requires s.box[p].wbegin == p + 1 && s.box[p].wend == End(0, Num(s), p)
    requires p == 0 ==> s.mode == (s.masterFast != 0)
    requires ThreadInv(s, p) && ChildInv(s, c)
    ensures ChildInv(Advance(s, p), c)
  {
    ParentHalves(0, Num(s), c);
    var pe, ce := End(0, Num(s), p), End(0, Num(s), c);
    if 1 <= Far(s.th[p]) <= 6 { ParentWakes(s, p, pe, c, ce); } else { ParentJoins(s, p, pe, c, ce); }
  }

  lemma {:induction false} OthersMove(s: State, t: nat, c: nat)
    requires Inv(s) && CanStep(s, t) && 0 < c < Num(s) && t != c && t != Parent(0, Num(s), c)
    ensures ChildInv(Advance(s, t), c)
  {
    assert ChildInv(s, c);
    StepTouches(s, t, c);
    StepTouches(s, t, Parent(0, Num(s), c));
  }

  lemma {:induction false} StepKeepsMaster(s: State, t: nat)
    requires Inv(s) && CanStep(s, t)
    ensures MasterInv(Advance(s, t))
  {
    StepperIsSet(s, t);
    assert ThreadInv(s, 0);
    if t != 0 { StepTouches(s, t, 0); }
  }

  lemma {:induction false} StepKeepsInv(s: State, t: nat)
    requires Inv(s) && CanStep(s, t)
    ensures Inv(Advance(s, t))
  {
    var s' := Advance(s, t);
    StepKeepsMaster(s, t);
    forall u: nat | u < |s'.th| ensures ThreadInv(s', u) { StepKeepsThread(s, t, u); }
    forall c: nat | 0 < c < Num(s') ensures ChildInv(s', c) {
      if c == t { ChildMoves(s, c); }
      else if t == Parent(0, Num(s), c) { StepperIsSet(s, t); ParentMoves(s, t, c); }
      else { OthersMove(s, t, c); }
    }
  }

  /** Once the master has joined its children, every thread of the run has finished. */
  lemma {:induction false} AllFinished(s: State, c: nat)
    requires Inv(s) && 0 < c < Num(s) && Far(s.th[0]) >= 10
    ensures s.th[c].fin && s.box[c].done && !s.box[c].release
    decreases c
  {
    var p := Parent(0, Num(s), c);
    if p > 0 { AllFinished(s, p); }
    assert ChildInv(s, c) && ThreadInv(s, c);
  }

  /** Between runs all threads wait with clean boxes, in the mode of the master. */
  lemma {:induction false} Rested(s: State, t: nat)
    requires Inv(s) && 0 < t < |s.th| && s.th[0].pc == Wait
    ensures s.th[t].pc == Wait && s.box[t].done && !s.box[t].release
    ensures s.th[t].ran == s.th[t].woken == Calls(s.runs, t)
    ensures s.th[t].fast <==> t < s.masterFast
  {
    assert ThreadInv(s, t) && ThreadInv(s, 0);
    if t < Num(s) { AllFinished(s, t); }
  }

  lemma {:induction false} CallsMore(runs: seq<nat>, size: nat, t: nat)
    ensures Calls(runs + [size], t) == Calls(runs, t) + (if t < size then 1 else 0)
  {
    assert (runs + [size])[..|runs + [size]| - 1] == runs;
  }

  lemma {:induction false} StartKeepsOther(s: State, num: nat, task: Task, t: nat)
    requires Inv(s) && CanRun(s, num, task) && 0 < t < |s.th|
    ensures ThreadInv(StartRun(s, num, task), t)
  {
    var s' := StartRun(s, num, task);
    Rested(s, t);
    CallsMore(s.runs, Num(s'), t);
    var calls := Calls(s'.runs, t);
    assert s'.th[t] == s.th[t].(fin := false) && s'.box[t] == s.box[t];
    if t < Num(s') {
      assert MemberInv(End(0, Num(s'), t), s'.mode, NewMode(s'), calls, s'.box[t], s'.th[t], t);
    } else {
      assert IdleInv(calls, s'.box[t], s'.th[t], t);
    }
  }

  lemma {:induction false} MasterStarts(size: nat, mode: bool, newMode: bool, calls: nat, b: Box, th: Thread)
    requires 1 <= size && calls >= 1 && b.wbegin == 1 && b.wend == size
    requires !th.fin && th.pc == (if 1 < size then Put1 else Work) && th.ran == calls - 1
    ensures MemberInv(size, mode, newMode, calls, b, th, 0)
  {
  }

  lemma {:induction false} EndOfRoot(t: nat, e: nat)
    requires t < e
    ensures End(t, e, t) == e
  {
  }

  lemma {:induction false} StartKeepsMaster(s: State, num: nat, task: Task)
    requires MasterInv(s) && |s.th| > 0 && ThreadInv(s, 0) && CanRun(s, num, task)
    ensures ThreadInv(StartRun(s, num, task), 0)
  {
    var s', size := StartRun(s, num, task), Size(|s.th|, num);
    CallsMore(s.runs, size, 0);
    EndOfRoot(0, size);
    MasterStarts(size, s'.mode, NewMode(s'), Calls(s'.runs, 0), s'.box[0], s'.th[0]);
  }

  lemma {:induction false} StartKeepsThread(s: State, num: nat, task: Task, t: nat)
    requires Inv(s) && CanRun(s, num, task) && t < |s.th|
    ensures ThreadInv(StartRun(s, num, task), t)
  {
    if t == 0 { assert ThreadInv(s, 0); StartKeepsMaster(s, num, task); } else { StartKeepsOther(s, num, task, t); }
  }

  lemma {:induction false} StartKeepsChild(s: State, num: nat, task: Task, c: nat)
    requires Inv(s) && CanRun(s, num, task) && 0 < c < Num(StartRun(s, num, task))
    ensures ChildInv(StartRun(s, num, task), c)
  {
    Rested(s, c);
    var p := Parent(0, Num(StartRun(s, num, task)), c);
    if p > 0 { Rested(s, p); }
  }

  lemma {:induction false} StartKeepsInv(s: State, num: nat, task: Task)
    requires Inv(s) && CanRun(s, num, task)
    ensures Inv(StartRun(s, num, task))
  {
    var s' := StartRun(s, num, task);
    forall t: nat | t < |s'.th| ensures ThreadInv(s', t) { StartKeepsThread(s, num, task, t); }
    forall c: nat | 0 < c < Num(s') ensures ChildInv(s', c) { StartKeepsChild(s, num, task, c); }
  }

  lemma {:induction false} InvHolds(n: nat, events: seq<Event>)
    ensures Inv(Exec(n, events)) && |Exec(n, events).th| == n
  {
    if events != [] {
      var before := events[..|events| - 1];
      var s, e := Exec(n, before), events[|events| - 1];
      InvHolds(n, before);
      match e {
        case Run(num, task) => if CanRun(s, num, task) { StartKeepsInv(s, num, task); }
        case Step(t) => if CanStep(s, t) { StepKeepsInv(s, t); }
      }
    }
  }

  // ----- what a run promises

  /** Over any sequence of runs in any interleaving: when the master is back in wait, every thread
      was woken and did the work exactly once for each run it belongs to, and no other time. */
  lemma {:induction false} OncePerRun(n: nat, events: seq<Event>, t: nat)
    requires var s := Exec(n, events); 0 < t < |s.th| && s.th[0].pc == Wait
    ensures var s := Exec(n, events); s.th[t].woken == s.th[t].ran == Calls(s.runs, t)
  {
    InvHolds(n, events);
    Rested(Exec(n, events), t);
  }

  /** At no time has a thread worked more than once for a run, or for a run it is not in. */
  lemma {:induction false} NeverTwice(n: nat, events: seq<Event>, t: nat)
    requires t < |Exec(n, events).th|
    ensures var s := Exec(n, events);
            && s.th[t].ran <= Calls(s.runs, t) && (t > 0 ==> s.th[t].woken <= Calls(s.runs, t))
            && (t >= Num(s) ==> s.th[t].ran == Calls(s.runs, t) && s.th[t].pc == Wait)
  {
    InvHolds(n, events);
    assert ThreadInv(Exec(n, events), t);
  }

  /** The master is past the waits of its decascade only when every thread of the run has finished
      the work function and stored done. */
  lemma {:induction false} JoinWaitsForAll(n: nat, events: seq<Event>, t: nat)
    requires var s := Exec(n, events); |s.th| > 0 && s.th[0].pc == Finish && 0 < t < Num(s)
    ensures var s := Exec(n, events);
            t < |s.th| == |s.box| && s.th[t].ran == Calls(s.runs, t) && s.th[t].pc == Wait && s.box[t].done
  {
    InvHolds(n, events);
    var s := Exec(n, events);
    assert ThreadInv(s, 0) && ThreadInv(s, t);
    AllFinished(s, t);
  }

  /** The child a thread at a join waits for. */
  ghost predicate WaitsFor(s: State, t: nat, c: nat)
    requires Inv(s) && t < Num(s)
  {
    t < c < Num(s) && Parent(0, Num(s), c) == t && Far(s.th[t]) >= 8 && !s.th[c].fin
  }

  lemma {:induction false} JoinOnChild(s: State, t: nat) returns (c: nat)
    requires Inv(s) && t < Num(s) && (s.th[t].pc == Join1 || s.th[t].pc == Join2) && !s.th[t].fin
    ensures CanStep(s, t) || WaitsFor(s, t, c)
  {
    assert ThreadInv(s, t);
    var e := End(0, Num(s), t);
    HalvesParent(0, Num(s), t);
    c := if s.th[t].pc == Join1 then t + 1 else Mid(t + 1, e);
    assert ChildInv(s, c);
  }

  lemma {:induction false} StepsUnlessJoining(s: State, t: nat)
    requires Inv(s) && t < Num(s) && !s.th[t].fin && s.th[t].pc != Join1 && s.th[t].pc != Join2
    requires t > 0 ==> Far(s.th[Parent(0, Num(s), t)]) >= 7
    ensures CanStep(s, t)
  {
    assert ThreadInv(s, t);
    if t > 0 { assert ChildInv(s, t); }
  }

  /** A thread of the run that has not finished but was released, or one below it, can step. */
  lemma {:induction false} SomeoneBelowSteps(s: State, t: nat) returns (u: nat)
    requires Inv(s) && t < Num(s) && !s.th[t].fin
    requires t > 0 ==> Far(s.th[Parent(0, Num(s), t)]) >= 7
    ensures CanStep(s, u)
    decreases Num(s) - t
  {
    u := t;
    if s.th[t].pc == Join1 || s.th[t].pc == Join2 {
      var c := JoinOnChild(s, t);
      if !CanStep(s, t) { u := SomeoneBelowSteps(s, c); }
    } else {
      StepsUnlessJoining(s, t);
    }
  }

  /** A run never gets stuck: while the master is in one, some thread can step. */
  lemma {:induction false} NoDeadlock(n: nat, events: seq<Event>) returns (u: nat)
    requires var s := Exec(n, events); |s.th| > 0 && s.th[0].pc != Wait
    ensures var s := Exec(n, events); |s.box| == |s.th| && CanStep(s, u)
  {
    InvHolds(n, events);
    var s := Exec(n, events);
    assert ThreadInv(s, 0);
    u := SomeoneBelowSteps(s, 0);
  }

  /** Every step brings its thread further in the run, which has at most eleven steps a thread. */
  lemma {:induction false} StepsGoForward(n: nat, events: seq<Event>, t: nat)
    requires var s := Exec(n, events); |s.box| == |s.th| && CanStep(s, t)
    ensures var s := Exec(n, events); Far(s.th[t]) < Far(Advance(s, t).th[t]) <= 11
  {
    InvHolds(n, events);
    StepperIsSet(Exec(n, events), t);
    Forward(Exec(n, events), t);
  }

  lemma {:induction false} Forward(s: State, t: nat)
    requires |s.box| == |s.th| && CanStep(s, t) && !s.th[t].fin
    ensures Far(s.th[t]) < Far(Advance(s, t).th[t]) <= 11
  {
  }
}
