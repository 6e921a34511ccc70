/** The component lengths under concurrent unifies: each unify reads the length of the element it
    linked and adds it to its boss's, in two accesses, and an addition that comes after the target's
    own length was read is lost to the set. */
module UnionLengths {
  import opened UnionFind

  // ----- where the lengths are

  /** The lengths on their way to x. */
  ghost function Coming(pc: seq<PC>, x: nat): (n: nat)
  {
    if pc == [] then 0 else (if pc[0].AddLen? && pc[0].boss == x then pc[0].len else 0) + Coming(pc[1..], x)
  }

  function Arriving(c: PC, x: nat): (n: nat) { if c.AddLen? && c.boss == x then c.len else 0 }

  lemma {:induction false} ComingUpdate(pc: seq<PC>, i: nat, c: PC, x: nat)
    requires i < |pc|
    ensures Coming(pc[i := c], x) == Coming(pc, x) - Arriving(pc[i], x) + Arriving(c, x)
  {
    if i == 0 {
      assert pc[i := c][1..] == pc[1..];
    } else {
      assert pc[i := c][1..] == pc[1..][i - 1 := c];
      ComingUpdate(pc[1..], i - 1, c, x);
    }
  }

  lemma {:induction false} NoneComing(pc: seq<PC>, x: nat)
    requires forall i :: 0 <= i < |pc| ==> Arriving(pc[i], x) == 0
    ensures Coming(pc, x) == 0
  {
    if pc != [] { NoneComing(pc[1..], x); }
  }

  /** What x holds for its set: its length until that is read, what is on its way to it, and what
      came too late. */
  ghost function Token(s: State, x: nat): (n: nat)
    requires Sized(s) && x < |s.parent|
  {
    (if s.taken[x] then 0 else s.complen[x]) + Coming(s.pc, x) + s.lost[x]
  }

  ghost function Tokens(s: State): (w: seq<nat>)
    requires Sized(s)
    ensures |w| == |s.parent|
  {
    seq(|s.parent|, x requires 0 <= x < |s.parent| => Token(s, x))
  }

  // ----- the invariant

  ghost predicate Loader(s: State, x: nat)
  {
    exists i :: 0 <= i < |s.pc| && s.pc[i].LoadLen? && s.pc[i].sub == x
  }

  ghost predicate ElementInv(s: State, x: nat)
    requires Sized(s) && x < |s.parent|
  {
    && (s.parent[x] == x ==> !s.taken[x]) && (!s.taken[x] ==> s.lost[x] == 0) && s.complen[x] >= 1
    && (s.parent[x] != x && !s.taken[x] ==> Loader(s, x))
  }

  ghost predicate LengthThread(s: State, i: nat)
    requires Sized(s) && Upward(s.parent) && i < |s.pc|
  {
    match s.pc[i]
    case LoadLen(sub, boss) =>
      && sub < boss < |s.parent| && s.parent[sub] != sub && !s.taken[sub]
      && Root(s.parent, sub) == Root(s.parent, boss)
      && (forall j :: 0 <= j < |s.pc| && j != i && s.pc[j].LoadLen? ==> s.pc[j].sub != sub)
    case AddLen(boss, len) => boss < |s.parent| && len >= 1
    case _ => true
  }

  /** The weights are the sizes of the sets. */
  ghost predicate Fits(p: seq<nat>, w: seq<nat>, b: nat)
    requires Upward(p) && |p| == |w|
  {
    Weight(p, w, b, |p|) == Members(p, b)
  }

  ghost predicate SetInv(s: State, b: nat)
    requires Sized(s) && Upward(s.parent)
  {
    Fits(s.parent, Tokens(s), b)
  }

  ghost predicate LengthInv(s: State)
  {
    && Inv(s)
    && (forall x: nat :: x < |s.parent| ==> ElementInv(s, x))
    && (forall i: nat :: i < |s.pc| ==> LengthThread(s, i))
    && (forall b: nat :: b < |s.parent| && s.parent[b] == b ==> SetInv(s, b))
  }

  // ----- weights

  lemma {:induction false} WeightUpdate(p: seq<nat>, w: seq<nat>, x: nat, v: nat, b: nat, k: nat)
    requires Upward(p) && k <= |p| == |w| && x < |p|
    ensures Weight(p, w[x := v], b, k) == Weight(p, w, b, k) + (if x < k && Root(p, x) == b then v - w[x] else 0)
  {
    if k > 0 { WeightUpdate(p, w, x, v, b, k - 1); }
  }

  /** Moving weight within a set changes no set's weight. */
  lemma {:induction false} WeightMove(p: seq<nat>, w: seq<nat>, x: nat, y: nat, v: nat, b: nat)
    requires Upward(p) && |p| == |w| && x < |p| && y < |p| && x != y && Root(p, x) == Root(p, y) && v <= w[x]
    ensures Weight(p, w[x := w[x] - v][y := w[y] + v], b, |p|) == Weight(p, w, b, |p|)
  {
    WeightUpdate(p, w, x, w[x] - v, b, |p|);
    WeightUpdate(p, w[x := w[x] - v], y, w[y] + v, b, |p|);
  }

  // ----- each kind of step keeps the sets' weights

  lemma {:induction false} TokensOfLoad(s: State, i: nat)
    requires Upward(s.parent) && Enabled(s, Step(i)) && s.pc[i].LoadLen? && LengthThread(s, i)
    ensures var w, sub, boss, v := Tokens(s), s.pc[i].sub, s.pc[i].boss, s.complen[s.pc[i].sub];
            sub != boss && v <= w[sub] && Tokens(Advance(s, i)) == w[sub := w[sub] - v][boss := w[boss] + v]
  {
    var w, s', sub, boss, v := Tokens(s), Advance(s, i), s.pc[i].sub, s.pc[i].boss, s.complen[s.pc[i].sub];
    forall x: nat | x < |s.parent| ensures Tokens(s')[x] == w[sub := w[sub] - v][boss := w[boss] + v][x] {
      ComingUpdate(s.pc, i, s'.pc[i], x);
    }
  }

  lemma {:induction false} TokenOfOthers(s: State, e: Event, x: nat)
    requires Enabled(s, e) && !(e.Step? && s.pc[e.i].LoadLen?) && x < |s.parent|
    ensures Token(Apply(s, e), x) == Token(s, x)
  {
    ComingUpdate(s.pc, e.i, Apply(s, e).pc[e.i], x);
  }

  lemma {:induction false} TokensOfOthers(s: State, e: Event)
    requires Enabled(s, e) && !(e.Step? && s.pc[e.i].LoadLen?)
    ensures Tokens(Apply(s, e)) == Tokens(s)
  {
    forall x: nat | x < |s.parent| ensures Tokens(Apply(s, e))[x] == Tokens(s)[x] { TokenOfOthers(s, e, x); }
  }

  lemma {:induction false} LoadKeepsSet(s: State, i: nat, b: nat)
    requires Upward(s.parent) && Enabled(s, Step(i)) && s.pc[i].LoadLen? && LengthThread(s, i) && SetInv(s, b)
    ensures SetInv(Advance(s, i), b)
  {
    TokensOfLoad(s, i);
    WeightMove(s.parent, Tokens(s), s.pc[i].sub, s.pc[i].boss, s.complen[s.pc[i].sub], b);
  }

  lemma {:induction false} LinkKeepsFits(p: seq<nat>, w: seq<nat>, sub: nat, boss: nat, b: nat)
    requires Upward(p) && sub < boss < |p| == |w| && p[sub] == sub && b != sub && Fits(p, w, b) && Fits(p, w, sub)
    ensures Upward(p[sub := boss]) && Fits(p[sub := boss], w, b)
  {
    WeightLink(p, w, sub, boss, b, |p|);
    WeightLink(p, Ones(|p|), sub, boss, b, |p|);
  }

  lemma {:induction false} CompressKeepsFits(p: seq<nat>, w: seq<nat>, l: nat, cur: nat, b: nat)
    requires Upward(p) && l < cur < |p| == |w| && p[l] != l && Root(p, cur) == Root(p, l) && Fits(p, w, b)
    ensures Upward(p[l := cur]) && Fits(p[l := cur], w, b)
  {
    var q := p[l := cur];
    RootCompress(p, l, cur, l);
    forall x: nat | x < |p| ensures Root(p, x) == Root(q, x) { RootCompress(p, l, cur, x); }
    WeightKept(p, q, w, b, |p|);
    WeightKept(p, q, Ones(|p|), b, |p|);
  }

  lemma {:induction false} ParentStepKeepsSet(s: State, i: nat, b: nat)
    requires Upward(s.parent) && ThreadsInv(s) && Enabled(s, Step(i)) && !Undoes(s, Step(i)) && !s.pc[i].LoadLen?
    requires b < |s.parent| && Advance(s, i).parent[b] == b
    requires forall x: nat :: x < |s.parent| && s.parent[x] == x ==> Fits(s.parent, Tokens(s), x)
    requires s.parent[b] == b
    ensures Upward(Advance(s, i).parent) && Fits(Advance(s, i).parent, Tokens(s), b)
  {
    var p := s.parent;
    assert ThreadInv(p, s.pc[i]);
    match s.pc[i] {
      case Swapping(one, two) =>
        var sub, boss := Smaller(one, two), Larger(one, two);
        if p[sub] == sub { LinkKeepsFits(p, Tokens(s), sub, boss, b); }
      case FindStore(l, cur) =>
        if l < cur { CompressKeepsFits(p, Tokens(s), l, cur, b); } else { assert p[l := cur] == p; }
      case _ =>
    }
  }

  lemma {:induction false} StepKeepsSet(s: State, e: Event, b: nat)
    requires LengthInv(s) && Enabled(s, e) && !Undoes(s, e) && Upward(Apply(s, e).parent)
    requires b < |s.parent| && s.parent[b] == b && Apply(s, e).parent[b] == b
    ensures SetInv(Apply(s, e), b)
  {
    assert SetInv(s, b);
    if e.Step? && s.pc[e.i].LoadLen? {
      assert LengthThread(s, e.i);
      LoadKeepsSet(s, e.i, b);
    } else {
      TokensOfOthers(s, e);
      if e.Step? {
        forall x: nat | x < |s.parent| && s.parent[x] == x ensures Fits(s.parent, Tokens(s), x) { assert SetInv(s, x); }
        ParentStepKeepsSet(s, e.i, b);
      }
    }
  }

  lemma {:induction false} BossBefore(s: State, e: Event, b: nat)
    requires Inv(s) && Enabled(s, e) && !Undoes(s, e) && b < |s.parent| && Apply(s, e).parent[b] == b
    ensures s.parent[b] == b
  {
    if s.parent[b] != b { StaysBelow(s, e, b); }
  }

  // ----- and what each element and each thread knows

  lemma {:induction false} StepKeepsElement(s: State, e: Event, x: nat)
    requires LengthInv(s) && Enabled(s, e) && !Undoes(s, e) && x < |s.parent|
    ensures ElementInv(Apply(s, e), x)
  {
    var s' := Apply(s, e);
    assert ElementInv(s, x);
    if e.Step? { assert LengthThread(s, e.i) && ThreadInv(s.parent, s.pc[e.i]); }
    if s.parent[x] != x { StaysBelow(s, e, x); }
    if s'.parent[x] != x && !s'.taken[x] {
      if s.parent[x] == x {
        assert s'.pc[e.i].LoadLen? && s'.pc[e.i].sub == x;
      } else {
        var i :| 0 <= i < |s.pc| && s.pc[i].LoadLen? && s.pc[i].sub == x;
        assert s'.pc[i] == s.pc[i];
      }
    }
  }

  lemma {:induction false} RootsKeptTogether(s: State, e: Event, x: nat, y: nat)
    requires Upward(s.parent) && ThreadsInv(s) && Enabled(s, e) && !Undoes(s, e) && Upward(Apply(s, e).parent)
    requires x < |s.parent| && y < |s.parent| && Root(s.parent, x) == Root(s.parent, y)
    ensures Root(Apply(s, e).parent, x) == Root(Apply(s, e).parent, y)
  {
    if e.Step? {
      var p := s.parent;
      assert ThreadInv(p, s.pc[e.i]);
      match s.pc[e.i] {
        case Swapping(one, two) =>
          var sub, boss := Smaller(one, two), Larger(one, two);
          if p[sub] == sub { RootLink(p, sub, boss, x); RootLink(p, sub, boss, y); }
        case FindStore(l, cur) =>
          if l < cur { RootCompress(p, l, cur, x); RootCompress(p, l, cur, y); } else { assert p[l := cur] == p; }
        case _ =>
      }
    }
  }

  /** Nobody else reads the length a thread is about to read. */
  lemma {:induction false} LoaderStaysAlone(s: State, e: Event, j: nat, k: nat)
    requires Enabled(s, e) && Upward(s.parent) && j < |s.pc| && k < |s.pc| && j != e.i && j != k
    requires LengthThread(s, j) && s.pc[j].LoadLen? && Apply(s, e).pc[k].LoadLen?
    ensures Apply(s, e).pc[k].sub != s.pc[j].sub
  {
    if k == e.i { assert e.Step? && s.pc[k].Swapping?; } else { assert Apply(s, e).pc[k] == s.pc[k]; }
  }

  lemma {:induction false} LengthStaysUnread(s: State, e: Event, j: nat)
    requires Enabled(s, e) && Upward(s.parent) && j < |s.pc| && j != e.i && LengthThread(s, j) && s.pc[j].LoadLen?
    ensures !Apply(s, e).taken[s.pc[j].sub]
  {
    if e.Step? && s.pc[e.i].LoadLen? { assert s.pc[e.i].sub != s.pc[j].sub; }
  }

  lemma {:induction false} StepKeepsLoader(s: State, e: Event, j: nat)
    requires Inv(s) && Enabled(s, e) && !Undoes(s, e) && Upward(Apply(s, e).parent) && j < |s.pc| && j != e.i
    requires LengthThread(s, j) && s.pc[j].LoadLen?
    ensures LengthThread(Apply(s, e), j)
  {
    var s', c := Apply(s, e), s.pc[j];
    assert s'.pc[j] == c;
    RootsKeptTogether(s, e, c.sub, c.boss);
    StaysBelow(s, e, c.sub);
    LengthStaysUnread(s, e, j);
    forall k | 0 <= k < |s'.pc| && k != j && s'.pc[k].LoadLen? ensures s'.pc[k].sub != c.sub { LoaderStaysAlone(s, e, j, k); }
  }

  lemma {:induction false} StepKeepsOther(s: State, e: Event, j: nat)
    requires Inv(s) && Enabled(s, e) && !Undoes(s, e) && Upward(Apply(s, e).parent) && j < |s.pc| && j != e.i
    requires LengthThread(s, j)
    ensures LengthThread(Apply(s, e), j)
  {
    assert Apply(s, e).pc[j] == s.pc[j];
    if s.pc[j].LoadLen? { StepKeepsLoader(s, e, j); }
  }

  lemma {:induction false} SwapKeepsOwn(s: State, i: nat)
    requires LengthInv(s) && Enabled(s, Step(i)) && s.pc[i].Swapping? && Upward(Advance(s, i).parent)
    ensures LengthThread(Advance(s, i), i)
  {
    var sub, boss := Smaller(s.pc[i].one, s.pc[i].two), Larger(s.pc[i].one, s.pc[i].two);
    assert ThreadInv(s.parent, s.pc[i]);
    if s.parent[sub] == sub {
      RootLink(s.parent, sub, boss, sub);
      RootLink(s.parent, sub, boss, boss);
      assert ElementInv(s, sub);
      forall j | 0 <= j < |s.pc| && j != i && s.pc[j].LoadLen? ensures s.pc[j].sub != sub { assert LengthThread(s, j); }
    }
  }

  lemma {:induction false} StepKeepsOwn(s: State, e: Event)
    requires LengthInv(s) && Enabled(s, e) && Upward(Apply(s, e).parent)
    ensures LengthThread(Apply(s, e), e.i)
  {
    if e.Step? {
      assert LengthThread(s, e.i);
      if s.pc[e.i].Swapping? { SwapKeepsOwn(s, e.i); }
      if s.pc[e.i].LoadLen? { assert ElementInv(s, s.pc[e.i].sub); }
    }
  }

  lemma {:induction false} StepKeepsLengths(s: State, e: Event)
    requires LengthInv(s) && Enabled(s, e) && !Undoes(s, e)
    ensures LengthInv(Apply(s, e))
  {
    var s' := Apply(s, e);
    AfterKeepsInv(s, e);
    forall x: nat | x < |s'.parent| ensures ElementInv(s', x) { StepKeepsElement(s, e, x); }
    forall i: nat | i < |s'.pc| ensures LengthThread(s', i) {
      if i == e.i { StepKeepsOwn(s, e); } else { assert LengthThread(s, i); StepKeepsOther(s, e, i); }
    }
    forall b: nat | b < |s'.parent| && s'.parent[b] == b ensures SetInv(s', b) {
      BossBefore(s, e, b);
      StepKeepsSet(s, e, b);
    }
  }

  lemma {:induction false} InitLengths(n: nat, threads: nat)
    ensures LengthInv(Exec(n, threads, []))
  {
    var s := Exec(n, threads, []);
    InitInv(n, threads);
    forall b: nat | b < n ensures SetInv(s, b) {
      NoneComing(s.pc, b);
      WeightAlone(s.parent, Tokens(s), b, n);
      WeightAlone(s.parent, Ones(n), b, n);
    }
  }

  lemma {:induction false} LengthsHold(n: nat, threads: nat, events: seq<Event>)
    requires Clean(n, threads, events)
    ensures LengthInv(Exec(n, threads, events))
  {
    if events == [] {
      InitLengths(n, threads);
    } else {
      var before, e := events[..|events| - 1], events[|events| - 1];
      LengthsHold(n, threads, before);
      var s := Exec(n, threads, before);
      if Enabled(s, e) { StepKeepsLengths(s, e); }
    }
  }

  // ----- exactly when a length is right

  /** No length is on its way within the set of b. */
  ghost predicate Settled(s: State, b: nat)
    requires Upward(s.parent)
  {
    forall i :: 0 <= i < |s.pc| ==>
      && (s.pc[i].LoadLen? && s.pc[i].sub < |s.parent| ==> Root(s.parent, s.pc[i].sub) != b)
      && (s.pc[i].AddLen? && s.pc[i].boss < |s.parent| ==> Root(s.parent, s.pc[i].boss) != b)
  }

  /** An element of a settled set other than its boss holds only what came too late. */
  lemma {:induction false} SettledToken(s: State, b: nat, x: nat)
    requires Sized(s) && Upward(s.parent) && Settled(s, b) && x < |s.parent| && Root(s.parent, x) == b && ElementInv(s, x)
    ensures Token(s, x) == (if x == b then s.complen[b] else 0) + s.lost[x]
  {
    forall i | 0 <= i < |s.pc| ensures Arriving(s.pc[i], x) == 0 {}
    NoneComing(s.pc, x);
    assert !Loader(s, x);
  }

  lemma {:induction false} WeightOfBoss(p: seq<nat>, w: seq<nat>, lost: seq<nat>, v: nat, b: nat, k: nat)
    requires Upward(p) && k <= |p| == |w| == |lost| && b < |p| && p[b] == b
    requires forall x: nat :: x < |p| && Root(p, x) == b ==> w[x] == (if x == b then v else 0) + lost[x]
    ensures Weight(p, w, b, k) == Weight(p, lost, b, k) + (if b < k then v else 0)
  {
    if k > 0 { WeightOfBoss(p, w, lost, v, b, k - 1); }
  }

  lemma {:induction false} NothingLost(p: seq<nat>, lost: seq<nat>, b: nat, k: nat)
    requires Upward(p) && k <= |p| == |lost|
    ensures Weight(p, lost, b, k) == 0 <==> forall x: nat :: x < k && Root(p, x) == b ==> lost[x] == 0
  {
    if k > 0 { NothingLost(p, lost, b, k - 1); }
  }

  /** Whether some unify has read the length of x, to add it elsewhere. */
  predicate Read(n: nat, threads: nat, events: seq<Event>, x: nat)
  {
    events != [] &&
    (var before, e := events[..|events| - 1], events[|events| - 1];
     var s := Exec(n, threads, before);
     Read(n, threads, before, x)
     || (e.Step? && Enabled(s, e) && s.pc[e.i].LoadLen? && s.pc[e.i].sub == x))
  }

  /** What unifies have added to the length of x after it had been read. */
  function Late(n: nat, threads: nat, events: seq<Event>, x: nat): (k: nat)
  {
    if events == [] then 0 else
    var before, e := events[..|events| - 1], events[|events| - 1];
    var s := Exec(n, threads, before);
    Late(n, threads, before, x) +
    if e.Step? && Enabled(s, e) && s.pc[e.i].AddLen? && s.pc[e.i].boss == x && Read(n, threads, before, x)
    then s.pc[e.i].len else 0
  }

  function Lates(n: nat, threads: nat, events: seq<Event>): (ks: seq<nat>)
    ensures |ks| == n
  {
    seq(n, x requires 0 <= x < n => Late(n, threads, events, x))
  }

  lemma {:induction false} HistoryIsLate(n: nat, threads: nat, events: seq<Event>, x: nat)
    requires x < n
    ensures var s := Exec(n, threads, events); s.taken[x] == Read(n, threads, events, x) && s.lost[x] == Late(n, threads, events, x)
  {
    if events != [] {
      var before := events[..|events| - 1];
      HistoryIsLate(n, threads, before, x);
      HistoryStep(Exec(n, threads, before), events[|events| - 1], x);
    }
  }

  lemma {:induction false} HistoryStep(s: State, e: Event, x: nat)
    requires Sized(s) && x < |s.parent|
    ensures var s', steps := After(s, e), e.Step? && Enabled(s, e);
            && |s'.taken| == |s'.lost| == |s.parent|
            && s'.taken[x] == (s.taken[x] || (steps && s.pc[e.i].LoadLen? && s.pc[e.i].sub == x))
            && s'.lost[x] == s.lost[x] + if steps && s.pc[e.i].AddLen? && s.pc[e.i].boss == x && s.taken[x] then s.pc[e.i].len else 0
  {
  }

  /** In every clean run, the length of a boss in whose set no length is on its way falls short of the
      size of the set by exactly what was added too late, so it is right if and only if nothing was
      added to an element of the set after that element's own length had been read. */
  lemma {:induction false} LengthExact(n: nat, threads: nat, events: seq<Event>, b: nat)
    requires Clean(n, threads, events) && b < n && Exec(n, threads, events).parent[b] == b
    requires Upward(Exec(n, threads, events).parent) && Settled(Exec(n, threads, events), b)
    ensures var s := Exec(n, threads, events);
            && s.complen[b] + Weight(s.parent, Lates(n, threads, events), b, n) == Members(s.parent, b)
            && (s.complen[b] == Members(s.parent, b) <==>
                  forall x: nat :: x < n && Root(s.parent, x) == b ==> Late(n, threads, events, x) == 0)
  {
    LengthsHold(n, threads, events);
    var s, late := Exec(n, threads, events), Lates(n, threads, events);
    assert SetInv(s, b);
    assert s.lost == late by {
      forall x: nat | x < n ensures s.lost[x] == late[x] { HistoryIsLate(n, threads, events, x); }
    }
    forall x: nat | x < n && Root(s.parent, x) == b
      ensures Tokens(s)[x] == (if x == b then s.complen[b] else 0) + late[x]
    {
      assert ElementInv(s, x);
      SettledToken(s, b, x);
    }
    WeightOfBoss(s.parent, Tokens(s), late, s.complen[b], b, n);
    NothingLost(s.parent, late, b, n);
    assert forall x: nat :: x < n ==> late[x] == Late(n, threads, events, x);
  }

  /** An addition that comes too late is never of nothing, so it does leave a length wrong. */
  lemma {:induction false} LateAddIsLost(n: nat, threads: nat, events: seq<Event>, i: nat)
    requires Clean(n, threads, events) && i < threads
    requires var c := Exec(n, threads, events).pc[i]; c.AddLen? && c.boss < n && Read(n, threads, events, c.boss)
    ensures var x := Exec(n, threads, events).pc[i].boss;
            Late(n, threads, events + [Step(i)], x) > Late(n, threads, events, x)
  {
    LengthsHold(n, threads, events);
    assert LengthThread(Exec(n, threads, events), i);
    assert (events + [Step(i)])[..|events|] == events;
  }

  // ----- a length that falls short

  /** unify(0, 1) swaps, unify(1, 2) swaps and reads the length of 1, then unify(0, 1) adds to it. */
  const LATE_ADD: seq<Event> :=
    [StartUnify(0, 0, 1), Step(0), Step(0), Step(0), StartUnify(1, 1, 2), Step(1), Step(1), Step(1), Step(1),
     Step(0), Step(0), Step(0), Step(1), Step(1)]

  /** A run of three elements and two threads is in state s after k events. */
  ghost predicate Reached(es: seq<Event>, k: nat, s: State)
  {
    k <= |es| && Exec(3, 2, es[..k]) == s
  }

  lemma {:induction false} ReachNext(es: seq<Event>, k: nat, e: Event, s: State, t: State)
    requires Reached(es, k, s) && k < |es| && es[k] == e && After(s, e) == t
    ensures Reached(es, k + 1, t)
  {
    ExecNext(3, 2, es, k);
  }

  lemma {:induction false} ReachStart(es: seq<Event>)
    ensures Reached(es, 0, Three([0, 1, 2], [1, 1, 1], Idle, Idle, [], [false, false, false], [0, 0, 0], 3))
  {
    assert es[..0] == [];
  }

  /** A state of such a run. */
  function Three(parent: seq<nat>, complen: seq<nat>, a: PC, b: PC, joined: seq<Pair>, taken: seq<bool>, lost: seq<nat>, n: int): (s: State)
  {
    State(parent, complen, n, [a, b], joined, taken, lost)
  }

  lemma {:induction false} FirstSwaps(es: seq<Event>)
    requires |es| >= 4 && es[0] == StartUnify(0, 0, 1) && es[1] == es[2] == es[3] == Step(0)
    ensures Reached(es, 4, Three([1, 1, 2], [1, 1, 1], LoadLen(0, 1), Idle, [(0, 1)], [false, false, false], [0, 0, 0], 3))
  {
    var p, one, none, zero := [0, 1, 2], [1, 1, 1], [false, false, false], [0, 0, 0];
    var s1, s2 := Three(p, one, CheckOne(0, 1), Idle, [], none, zero, 3), Three(p, one, CheckTwo(0, 1), Idle, [], none, zero, 3);
    var s3, s4 := Three(p, one, Swapping(0, 1), Idle, [], none, zero, 3), Three([1, 1, 2], one, LoadLen(0, 1), Idle, [(0, 1)], none, zero, 3);
    ReachStart(es);
    ReachNext(es, 0, StartUnify(0, 0, 1), Three(p, one, Idle, Idle, [], none, zero, 3), s1);
    ReachNext(es, 1, Step(0), s1, s2);
    ReachNext(es, 2, Step(0), s2, s3);
    ReachNext(es, 3, Step(0), s3, s4);
  }

  lemma {:induction false} SecondChecks(es: seq<Event>)
    requires |es| >= 9 && es[4] == StartUnify(1, 1, 2) && es[5] == es[6] == Step(1)
    requires Reached(es, 4, Three([1, 1, 2], [1, 1, 1], LoadLen(0, 1), Idle, [(0, 1)], [false, false, false], [0, 0, 0], 3))
    ensures Reached(es, 7, Three([1, 1, 2], [1, 1, 1], LoadLen(0, 1), Swapping(1, 2), [(0, 1)], [false, false, false], [0, 0, 0], 3))
  {
    var p, one, none, zero, c, js := [1, 1, 2], [1, 1, 1], [false, false, false], [0, 0, 0], LoadLen(0, 1), [(0, 1)];
    var s5, s6 := Three(p, one, c, CheckOne(1, 2), js, none, zero, 3), Three(p, one, c, CheckTwo(1, 2), js, none, zero, 3);
    ReachNext(es, 4, StartUnify(1, 1, 2), Three(p, one, c, Idle, js, none, zero, 3), s5);
    ReachNext(es, 5, Step(1), s5, s6);
    ReachNext(es, 6, Step(1), s6, Three(p, one, c, Swapping(1, 2), js, none, zero, 3));
  }

  lemma {:induction false} SecondSwaps(es: seq<Event>)
    requires |es| >= 9 && es[7] == es[8] == Step(1)
    requires Reached(es, 7, Three([1, 1, 2], [1, 1, 1], LoadLen(0, 1), Swapping(1, 2), [(0, 1)], [false, false, false], [0, 0, 0], 3))
    ensures Reached(es, 9, Three([1, 2, 2], [1, 1, 1], LoadLen(0, 1), AddLen(2, 1), [(0, 1), (1, 2)], [false, true, false], [0, 0, 0], 3))
  {
    var q, one, none, zero, c, js := [1, 2, 2], [1, 1, 1], [false, false, false], [0, 0, 0], LoadLen(0, 1), [(0, 1), (1, 2)];
    var s7, s8 := Three([1, 1, 2], one, c, Swapping(1, 2), [(0, 1)], none, zero, 3), Three(q, one, c, LoadLen(1, 2), js, none, zero, 3);
    assert [(0, 1)] + [(1, 2)] == js;
    ReachNext(es, 7, Step(1), s7, s8);
    ReachNext(es, 8, Step(1), s8, Three(q, one, c, AddLen(2, 1), js, [false, true, false], zero, 3));
  }

  lemma {:induction false} FirstAddsLate(es: seq<Event>)
    requires |es| >= 14 && es[9] == es[10] == es[11] == Step(0) && es[12] == es[13] == Step(1)
    requires Reached(es, 9, Three([1, 2, 2], [1, 1, 1], LoadLen(0, 1), AddLen(2, 1), [(0, 1), (1, 2)], [false, true, false], [0, 0, 0], 3))
    ensures Reached(es, 14, Three([1, 2, 2], [1, 2, 2], Idle, Idle, [(0, 1), (1, 2)], [true, true, false], [0, 1, 0], 1))
  {
    var p, js, d, t := [1, 2, 2], [(0, 1), (1, 2)], AddLen(2, 1), [true, true, false];
    var s9 := Three(p, [1, 1, 1], LoadLen(0, 1), d, js, [false, true, false], [0, 0, 0], 3);
    var s10, s11 := Three(p, [1, 1, 1], AddLen(1, 1), d, js, t, [0, 0, 0], 3), Three(p, [1, 2, 1], Dropping, d, js, t, [0, 1, 0], 3);
    var s12, s13 := Three(p, [1, 2, 1], Idle, d, js, t, [0, 1, 0], 2), Three(p, [1, 2, 2], Idle, Dropping, js, t, [0, 1, 0], 2);
    ReachNext(es, 9, Step(0), s9, s10);
    ReachNext(es, 10, Step(0), s10, s11);
    ReachNext(es, 11, Step(0), s11, s12);
    ReachNext(es, 12, Step(1), s12, s13);
    ReachNext(es, 13, Step(1), s13, Three(p, [1, 2, 2], Idle, Idle, js, t, [0, 1, 0], 1));
  }

  /** Three elements end up in one set whose boss has length 2, with all threads idle. */
  lemma {:induction false} LengthFallsShort()
    ensures Reached(LATE_ADD, 14, Three([1, 2, 2], [1, 2, 2], Idle, Idle, [(0, 1), (1, 2)], [true, true, false], [0, 1, 0], 1))
    ensures Upward([1, 2, 2]) && Members([1, 2, 2], 2) == 3
  {
    FirstSwaps(LATE_ADD);
    SecondChecks(LATE_ADD);
    SecondSwaps(LATE_ADD);
    FirstAddsLate(LATE_ADD);
    AllThree([1, 2, 2]);
  }

  lemma {:induction false} AllThree(p: seq<nat>)
    requires p == [1, 2, 2]
    ensures Upward(p) && Members(p, 2) == 3
  {
    assert Root(p, 2) == 2 && Root(p, 1) == 2 && Root(p, 0) == 2;
    var w := Ones(3);
    assert Weight(p, w, 2, 1) == 1;
    assert Weight(p, w, 2, 2) == 2;
  }
}
