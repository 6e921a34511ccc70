/** The calls of the component space: what a unify and a find do alone, and how they end in any
    interleaving. Calls and joins are read off the events. */
module UnionCalls {
  import opened UnionFind

  datatype Call = None | Unify(one: nat, two: nat) | Find(l: nat, compress: bool)

  /** The last call of thread i. */
  function CallOf(n: nat, threads: nat, events: seq<Event>, i: nat): (c: Call)
  {
    if events == [] then None else
    var before, e := events[..|events| - 1], events[|events| - 1];
    if !Enabled(Exec(n, threads, before), e) || e.i != i then CallOf(n, threads, before, i) else
    match e
    case StartUnify(_, one, two) => Unify(one, two)
    case StartFind(_, l, compress) => Find(l, compress)
    case Step(_) => CallOf(n, threads, before, i)
  }

  /** A thread inside a call works on the arguments of that call. */
  predicate CallInv(c: PC, call: Call)
  {
    match c
    case Idle => true
    case CheckOne(one, two) => call == Unify(one, two)
    case CheckTwo(one, two) => call == Unify(one, two)
    case Swapping(one, two) => call == Unify(one, two)
    case LoadLen(sub, boss) => call.Unify? && sub == Smaller(call.one, call.two) && boss == Larger(call.one, call.two)
    case AddLen(boss, _) => call.Unify? && boss == Larger(call.one, call.two)
    case Dropping => call.Unify?
    case FindCheck(l, _, compress) => call == Find(l, compress)
    case FindLoad(l, _, compress) => call == Find(l, compress)
    case FindStore(l, _) => call == Find(l, true)
  }

  lemma {:induction false} CallsHold(n: nat, threads: nat, events: seq<Event>, i: nat)
    requires i < threads
    ensures CallInv(Exec(n, threads, events).pc[i], CallOf(n, threads, events, i))
  {
    if events != [] {
      var before, e := events[..|events| - 1], events[|events| - 1];
      CallsHold(n, threads, before, i);
      if e.Step? { StepKeepsCall(Exec(n, threads, before), e.i, i, CallOf(n, threads, before, i)); }
    }
  }

  lemma {:induction false} StepKeepsCall(s: State, j: nat, i: nat, call: Call)
    requires i < |s.pc| && CallInv(s.pc[i], call)
    ensures i < |After(s, Step(j)).pc| && CallInv(After(s, Step(j)).pc[i], call)
  {
  }

  // ----- how calls end, in every interleaving

  /** What is left of a call, whatever other threads do in between. */
  ghost function CallLeft(n: nat, c: PC): (k: int)
  {
    match c
    case Idle => 0 case CheckOne(_, _) => 6 case CheckTwo(_, _) => 5 case Swapping(_, _) => 4
    case LoadLen(_, _) => 3 case AddLen(_, _) => 2 case Dropping => 1
    case _ => FindLeft(n, c)
  }

  /** The event ends a unify that has not swapped: it returns false. */
  predicate Refuses(s: State, e: Event)
  {
    && e.Step? && Enabled(s, e)
    && (s.pc[e.i].CheckOne? || s.pc[e.i].CheckTwo? || s.pc[e.i].Swapping?) && After(s, e).pc[e.i].Idle?
  }

  /** The event is the successful compare-and-swap of a unify. */
  predicate Joins(s: State, e: Event)
  {
    e.Step? && Enabled(s, e) && !Swapped(s.pc[e.i]) && Swapped(After(s, e).pc[e.i])
  }

  /** In every interleaving, a unify refuses only if its arguments are one element, or one of them is
      no boss at that very access; and when it swaps both are distinct, the smaller one is a boss and
      is put below the larger one. */
  lemma {:induction false} UnifyRefusesOnlyIf(n: nat, threads: nat, events: seq<Event>, i: nat)
    requires i < threads
    ensures var s, call := Exec(n, threads, events), CallOf(n, threads, events, i);
            && (Refuses(s, Step(i)) ==>
                  && call.Unify? && call.one < n && call.two < n
                  && (call.one == call.two || s.parent[call.one] != call.one || s.parent[call.two] != call.two))
            && (Joins(s, Step(i)) ==>
                  && call.Unify? && call.one < n && call.two < n
                  && (var sub, boss := Smaller(call.one, call.two), Larger(call.one, call.two);
                      s.parent[sub] == sub && After(s, Step(i)).parent == s.parent[sub := boss]))
  {
    CallsHold(n, threads, events, i);
  }

  /** A thread inside a call can always take its next step, and each step brings the call nearer to
      its end: a unify has at most six. */
  lemma {:induction false} CallsGoOn(n: nat, threads: nat, events: seq<Event>, i: nat)
    requires Clean(n, threads, events) && i < threads && !Exec(n, threads, events).pc[i].Idle?
    ensures var s := Exec(n, threads, events);
            Enabled(s, Step(i)) && 0 <= CallLeft(n, After(s, Step(i)).pc[i]) < CallLeft(n, s.pc[i])
  {
    var s := Exec(n, threads, events);
    RangeHolds(n, threads, events, i);
    if s.pc[i].FindCheck? || s.pc[i].FindLoad? || s.pc[i].FindStore? { FindProgress(n, threads, events, i); }
  }

  lemma {:induction false} RangeHolds(n: nat, threads: nat, events: seq<Event>, i: nat)
    requires Clean(n, threads, events) && i < threads
    ensures var c := Exec(n, threads, events).pc[i]; c.Idle? || InRange(c, n)
  {
    if events != [] {
      var before := events[..|events| - 1];
      RangeHolds(n, threads, before, i);
      InvHolds(n, threads, before);
      RangeKept(Exec(n, threads, before), events[|events| - 1], i);
    }
  }

  lemma {:induction false} RangeKept(s: State, e: Event, i: nat)
    requires Sized(s) && Upward(s.parent) && i < |s.pc| && (s.pc[i].Idle? || InRange(s.pc[i], |s.parent|))
    ensures var c := After(s, e).pc[i]; c.Idle? || InRange(c, |s.parent|)
  {
  }

  /** A find ends at the boss of its element: the isBoss after which it stops reading is on the root
      the element has at that moment, and that root is what it stores if it compresses. */
  lemma {:induction false} FindEndsAtRoot(n: nat, threads: nat, events: seq<Event>, i: nat)
    requires Clean(n, threads, events) && i < threads
    requires var s := Exec(n, threads, events);
             s.pc[i].FindCheck? && Enabled(s, Step(i)) && !After(s, Step(i)).pc[i].FindLoad?
    ensures var s, call := Exec(n, threads, events), CallOf(n, threads, events, i);
            && call.Find? && call.l < n && Upward(s.parent) && s.pc[i].cur == Root(s.parent, call.l)
            && After(s, Step(i)).pc[i] == if call.compress then FindStore(call.l, Root(s.parent, call.l)) else Idle
  {
    CallsHold(n, threads, events, i);
    FindAnswersRoot(n, threads, events, i);
  }

  // ----- the joins of a run

  /** The arguments of the unify calls whose compare-and-swap succeeded, in that order. */
  function Joined(n: nat, threads: nat, events: seq<Event>): (js: seq<Pair>)
  {
    if events == [] then [] else
    var before, e := events[..|events| - 1], events[|events| - 1];
    if !Joins(Exec(n, threads, before), e) then Joined(n, threads, before) else
    match CallOf(n, threads, before, e.i)
    case Unify(one, two) => Joined(n, threads, before) + [(one, two)]
    case _ => Joined(n, threads, before)
  }

  lemma {:induction false} JoinedIsHistory(n: nat, threads: nat, events: seq<Event>)
    ensures Exec(n, threads, events).joined == Joined(n, threads, events)
  {
    if events != [] {
      var before, e := events[..|events| - 1], events[|events| - 1];
      JoinedIsHistory(n, threads, before);
      if Enabled(Exec(n, threads, before), e) { CallsHold(n, threads, before, e.i); }
    }
  }

  /** In every run without a step that undoes a link: two elements are in one set exactly when the
      unify calls that succeeded connect them, those calls form a forest, and ncomponents counts the
      sets, plus the unifies that have swapped and not yet decremented. */
  lemma {:induction false} SetsAreComponents(n: nat, threads: nat, events: seq<Event>)
    requires Clean(n, threads, events)
    ensures var s, js := Exec(n, threads, events), Joined(n, threads, events);
            && Upward(s.parent) && Forest(js)
            && (forall a: nat, b: nat :: a < n && b < n ==> (Root(s.parent, a) == Root(s.parent, b) <==> Connected(js, a, b)))
            && s.ncomponents - Droppers(s.pc) == Bosses(s.parent, n) == n - |js|
  {
    JoinedIsHistory(n, threads, events);
    UnionFind.SetsAreComponents(n, threads, events);
  }

  // ----- calls alone

  function Iterate<S>(f: S -> S, s: S, m: nat): (s': S)
  {
    if m == 0 then s else f(Iterate(f, s, m - 1))
  }

  lemma {:induction false} IterateAdds<S>(f: S -> S, s: S, a: nat, b: nat, t: S, u: S)
    requires Iterate(f, s, a) == t && Iterate(f, t, b) == u
    ensures Iterate(f, s, a + b) == u
    decreases b
  {
    if b > 0 { IterateAdds(f, s, a, b - 1, t, Iterate(f, t, b - 1)); }
  }

  lemma {:induction false} Iterate1<S>(f: S -> S, s: S, t: S) returns (m: nat)
    requires f(s) == t
    ensures m == 1 && Iterate(f, s, m) == t
  {
    m := 1;
    assert Iterate(f, s, 0) == s;
  }

  lemma {:induction false} Iterate2<S>(f: S -> S, s: S, t: S, u: S) returns (m: nat)
    requires f(s) == t && f(t) == u
    ensures m == 2 && Iterate(f, s, m) == u
  {
    var a := Iterate1(f, s, t);
    var b := Iterate1(f, t, u);
    IterateAdds(f, s, a, b, t, u);
    m := a + b;
  }

  lemma {:induction false} Iterate6<S>(f: S -> S, s: S, s2: S, s4: S, s6: S, a: nat, b: nat, c: nat)
    requires a == b == c == 2 && Iterate(f, s, a) == s2 && Iterate(f, s2, b) == s4 && Iterate(f, s4, c) == s6
    ensures Iterate(f, s, 6) == s6
  {
    IterateAdds(f, s, a, b, s2, s4);
    IterateAdds(f, s, a + b, c, s4, s6);
  }

  /** The uninterrupted steps of thread i. */
  function Mover(i: nat): (f: State -> State) { s => After(s, Step(i)) }

  lemma {:induction false} AloneIsRun(n: nat, threads: nat, events: seq<Event>, i: nat, m: nat)
    ensures Exec(n, threads, events + seq(m, _ => Step(i))) == Iterate(Mover(i), Exec(n, threads, events), m)
  {
    if m == 0 {
      assert events + [] == events;
    } else {
      AloneIsRun(n, threads, events, i, m - 1);
      assert (events + seq(m, _ => Step(i)))[..|events| + m - 1] == events + seq(m - 1, _ => Step(i));
    }
  }

  /** The words a unify changes. */
  function Words(s: State): (w: Space) { Space(s.parent, s.complen, s.ncomponents) }

  /** A thread at the start of a unify. */
  predicate Unifying(s: State, i: nat, one: nat, two: nat)
  {
    Sized(s) && i < |s.pc| && s.pc[i] == CheckOne(one, two) && one < |s.parent| && two < |s.parent|
  }

  lemma {:induction false} Refusal(s: State, i: nat, one: nat, two: nat)
    requires Unifying(s, i, one, two) && (s.parent[one] != one || s.parent[two] != two || one == two)
    ensures After(After(s, Step(i)), Step(i)) == s.(pc := s.pc[i := Idle])
  {
    var a := After(s, Step(i));
    if s.parent[one] == one { assert s.pc[i := CheckTwo(one, two)][i := Idle] == s.pc[i := Idle]; }
    else { assert a.pc[i] == Idle && !Enabled(a, Step(i)); }
  }

  lemma {:induction false} Checks(s: State, i: nat, one: nat, two: nat)
    requires Unifying(s, i, one, two) && s.parent[one] == one && s.parent[two] == two && one != two
    ensures After(After(s, Step(i)), Step(i)) == s.(pc := s.pc[i := Swapping(one, two)])
  {
    assert s.pc[i := CheckTwo(one, two)][i := Swapping(one, two)] == s.pc[i := Swapping(one, two)];
  }

  lemma {:induction false} Swap(s: State, i: nat, one: nat, two: nat)
    requires Sized(s) && i < |s.pc| && s.pc[i] == Swapping(one, two) && one < |s.parent| && two < |s.parent| && one != two
    requires s.parent[Smaller(one, two)] == Smaller(one, two)
    ensures var t, sub, boss := After(After(s, Step(i)), Step(i)), Smaller(one, two), Larger(one, two);
            && Sized(t) && Words(t) == Words(s).(parent := s.parent[sub := boss])
            && t.pc == s.pc[i := AddLen(boss, s.complen[sub])]
  {
    var sub, boss := Smaller(one, two), Larger(one, two);
    assert s.pc[i := LoadLen(sub, boss)][i := AddLen(boss, s.complen[sub])] == s.pc[i := AddLen(boss, s.complen[sub])];
  }

  lemma {:induction false} AddAndDrop(s: State, i: nat, boss: nat, len: nat)
    requires Sized(s) && i < |s.pc| && s.pc[i] == AddLen(boss, len) && boss < |s.parent|
    ensures var t := After(After(s, Step(i)), Step(i));
            && t.pc == s.pc[i := Idle]
            && Words(t) == Space(s.parent, s.complen[boss := s.complen[boss] + len], s.ncomponents - 1)
  {
    assert s.pc[i := Dropping][i := Idle] == s.pc[i := Idle];
  }

  lemma {:induction false} Twice(s: State, i: nat, t: State) returns (m: nat)
    requires After(After(s, Step(i)), Step(i)) == t
    ensures m == 2 && Iterate(Mover(i), s, m) == t
  {
    m := Iterate2(Mover(i), s, After(s, Step(i)), t);
  }

  lemma {:induction false} JoinAlone(s: State, i: nat, one: nat, two: nat) returns (t: State)
    requires Unifying(s, i, one, two) && s.parent[one] == one && s.parent[two] == two && one != two
    ensures Iterate(Mover(i), s, 6) == t && t.pc == s.pc[i := Idle] && Words(t) == Unified(Words(s), one, two)
  {
    var sub, boss := Smaller(one, two), Larger(one, two);
    var s2 := s.(pc := s.pc[i := Swapping(one, two)]);
    Checks(s, i, one, two);
    Swap(s2, i, one, two);
    var s4 := After(After(s2, Step(i)), Step(i));
    AddAndDrop(s4, i, boss, s.complen[sub]);
    t := After(After(s4, Step(i)), Step(i));
    SixAlone(s, i, s2, s4, t);
    assert s2.pc[i := AddLen(boss, s.complen[sub])][i := Idle] == s.pc[i := Idle];
  }

  lemma {:induction false} SixAlone(s: State, i: nat, s2: State, s4: State, s6: State)
    requires After(After(s, Step(i)), Step(i)) == s2 && After(After(s2, Step(i)), Step(i)) == s4
    requires After(After(s4, Step(i)), Step(i)) == s6
    ensures Iterate(Mover(i), s, 6) == s6
  {
    var a := Twice(s, i, s2);
    var b := Twice(s2, i, s4);
    var c := Twice(s4, i, s6);
    Iterate6(Mover(i), s, s2, s4, s6, a, b, c);
  }

  lemma {:induction false} RefusedAlone(s: State, i: nat, one: nat, two: nat) returns (t: State)
    requires Unifying(s, i, one, two) && (s.parent[one] != one || s.parent[two] != two || one == two)
    ensures Iterate(Mover(i), s, 6) == t && t.pc == s.pc[i := Idle] && Words(t) == Words(s)
  {
    t := s.(pc := s.pc[i := Idle]);
    Refusal(s, i, one, two);
    assert t.pc[i] == Idle && !Enabled(t, Step(i));
    SixAlone(s, i, t, t, t);
  }

  lemma {:induction false} UnifyAlone(s: State, i: nat, one: nat, two: nat) returns (t: State)
    requires Unifying(s, i, one, two)
    ensures Iterate(Mover(i), s, 6) == t && t.pc == s.pc[i := Idle] && Words(t) == Unified(Words(s), one, two)
  {
    if s.parent[one] == one && s.parent[two] == two && one != two { t := JoinAlone(s, i, one, two); }
    else { t := RefusedAlone(s, i, one, two); }
  }

  /** A call of unify without interruption does to the words what the method does. */
  lemma {:induction false} UnifyIsRun(n: nat, threads: nat, events: seq<Event>, i: nat, one: nat, two: nat)
    requires i < threads && one < n && two < n && Exec(n, threads, events).pc[i].Idle?
    ensures var s, s' := Exec(n, threads, events), Exec(n, threads, events + [StartUnify(i, one, two)] + seq(6, _ => Step(i)));
            s'.pc == s.pc && Words(s') == Unified(Words(s), one, two)
  {
    var s, start := Exec(n, threads, events), events + [StartUnify(i, one, two)];
    assert start[..|events|] == events;
    AloneIsRun(n, threads, start, i, 6);
    var t := UnifyAlone(Exec(n, threads, start), i, one, two);
    assert s.pc[i := CheckOne(one, two)][i := Idle] == s.pc;
  }

  /** Thread i is about to test cur. */
  function Testing(s: State, i: nat, l: nat, cur: nat, compress: bool): (s': State)
    requires i < |s.pc|
  {
    s.(pc := s.pc[i := FindCheck(l, cur, compress)])
  }

  lemma {:induction false} WalkOn(s: State, i: nat, l: nat, cur: nat, compress: bool)
    requires Sized(s) && i < |s.pc| && l < |s.parent| && cur < |s.parent| && s.parent[cur] != cur
    ensures var t := Testing(s, i, l, cur, compress);
            After(After(t, Step(i)), Step(i)) == Testing(s, i, l, s.parent[cur], compress)
  {
    var t, a := Testing(s, i, l, cur, compress), s.(pc := s.pc[i := FindLoad(l, cur, compress)]);
    assert t.pc[i := FindLoad(l, cur, compress)] == a.pc;
    assert a.pc[i := FindCheck(l, s.parent[cur], compress)] == s.pc[i := FindCheck(l, s.parent[cur], compress)];
  }

  /** The walk of a find that nobody interrupts. */
  lemma {:induction false} WalkAlone(s: State, i: nat, l: nat, cur: nat, compress: bool) returns (m: nat)
    requires Sized(s) && Upward(s.parent) && i < |s.pc| && l < |s.parent| && cur < |s.parent|
    ensures Iterate(Mover(i), Testing(s, i, l, cur, compress), m) == Testing(s, i, l, Root(s.parent, cur), compress)
    decreases |s.parent| - cur
  {
    var t := Testing(s, i, l, cur, compress);
    m := 0;
    if s.parent[cur] != cur {
      var k := WalkAlone(s, i, l, s.parent[cur], compress);
      WalkOn(s, i, l, cur, compress);
      var j := Twice(t, i, Testing(s, i, l, s.parent[cur], compress));
      IterateAdds(Mover(i), t, j, k, Testing(s, i, l, s.parent[cur], compress), Testing(s, i, l, Root(s.parent, cur), compress));
      m := j + k;
    }
  }

  lemma {:induction false} FindStops(s: State, i: nat, l: nat, r: nat, compress: bool) returns (m: nat)
    requires Sized(s) && i < |s.pc| && l < |s.parent| && r < |s.parent| && s.parent[r] == r
    requires s.pc[i] == FindCheck(l, r, compress)
    ensures Iterate(Mover(i), s, m) ==
            s.(pc := s.pc[i := Idle], parent := if compress then s.parent[l := r] else s.parent)
  {
    assert s.pc[i := FindStore(l, r)][i := Idle] == s.pc[i := Idle];
    if compress {
      m := Twice(s, i, s.(pc := s.pc[i := Idle], parent := s.parent[l := r]));
    } else {
      m := Iterate1(Mover(i), s, s.(pc := s.pc[i := Idle]));
    }
  }

  lemma {:induction false} FindAlone(s: State, i: nat, l: nat, compress: bool) returns (m: nat)
    requires Sized(s) && Upward(s.parent) && i < |s.pc| && l < |s.parent| && s.pc[i] == FindCheck(l, l, compress)
    ensures Iterate(Mover(i), s, m) == s.(pc := s.pc[i := Idle], parent := Found(s.parent, l, compress))
  {
    var k := WalkAlone(s, i, l, l, compress);
    var a := Testing(s, i, l, Root(s.parent, l), compress);
    assert s.pc[i := s.pc[i]] == s.pc && a.pc[i := Idle] == s.pc[i := Idle];
    var j := FindStops(a, i, l, Root(s.parent, l), compress);
    IterateAdds(Mover(i), s, k, j, a, s.(pc := s.pc[i := Idle], parent := Found(s.parent, l, compress)));
    m := k + j;
  }

  /** A call of find without interruption does to the words what the method does. */
  lemma {:induction false} FindIsRun(n: nat, threads: nat, events: seq<Event>, i: nat, l: nat, compress: bool) returns (m: nat)
    requires Clean(n, threads, events) && i < threads && l < n && Exec(n, threads, events).pc[i].Idle?
    ensures var s, s' := Exec(n, threads, events), Exec(n, threads, events + [StartFind(i, l, compress)] + seq(m, _ => Step(i)));
            && Upward(s.parent) && s'.pc == s.pc && s'.complen == s.complen && s'.ncomponents == s.ncomponents
            && s'.parent == Found(s.parent, l, compress)
  {
    var s, start := Exec(n, threads, events), events + [StartFind(i, l, compress)];
    InvHolds(n, threads, events);
    assert start[..|events|] == events;
    m := FindAlone(Exec(n, threads, start), i, l, compress);
    AloneIsRun(n, threads, start, i, m);
    assert s.pc[i := FindCheck(l, l, compress)][i := Idle] == s.pc;
  }
}
