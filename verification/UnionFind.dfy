/** The disjoint-set forest of the GPU component space: elements point to larger elements until a
    boss, unify links a boss below another by compare-and-swap, find walks up. */
module UnionFind {

  // ----- the forest

  /** Every element points to itself (a boss) or to a larger one, so the walk up ends. */
  ghost predicate Upward(p: seq<nat>)
  {
    forall i :: 0 <= i < |p| ==> i <= p[i] < |p|
  }

  ghost function Root(p: seq<nat>, x: nat): (r: nat)
    requires Upward(p) && x < |p|
    ensures x <= r < |p| && p[r] == r
    decreases |p| - x
  {
    if p[x] == x then x else Root(p, p[x])
  }

  /** Linking a boss below a larger element moves exactly its own set. */
  lemma {:induction false} RootLink(p: seq<nat>, sub: nat, boss: nat, x: nat)
    requires Upward(p) && sub < boss < |p| && p[sub] == sub && x < |p|
    ensures Upward(p[sub := boss])
    ensures Root(p[sub := boss], x) == if Root(p, x) == sub then Root(p, boss) else Root(p, x)
    decreases |p| - x
  {
    var q := p[sub := boss];
    if x == sub {
      RootLink(p, sub, boss, boss);
    } else if p[x] != x {
      RootLink(p, sub, boss, p[x]);
    }
  }

  /** Pointing an element that is no boss at any element above it changes no root. */
  lemma {:induction false} RootCompress(p: seq<nat>, l: nat, c: nat, x: nat)
    requires Upward(p) && l < c < |p| && p[l] != l && Root(p, c) == Root(p, l) && x < |p|
    ensures Upward(p[l := c])
    ensures Root(p[l := c], x) == Root(p, x)
    decreases |p| - x
  {
    if x == l {
      RootCompress(p, l, c, c);
    } else if p[x] != x {
      RootCompress(p, l, c, p[x]);
    }
  }

  /** How many of the first k elements are bosses. */
  ghost function Bosses(p: seq<nat>, k: nat): (n: nat)
    requires k <= |p|
  {
    if k == 0 then 0 else Bosses(p, k - 1) + (if p[k - 1] == k - 1 then 1 else 0)
  }

  lemma {:induction false} BossesLink(p: seq<nat>, sub: nat, boss: nat, k: nat)
    requires k <= |p| && sub < |p| && p[sub] == sub && boss != sub
    ensures Bosses(p[sub := boss], k) == Bosses(p, k) - (if sub < k then 1 else 0)
  {
    if k > 0 { BossesLink(p, sub, boss, k - 1); }
  }

  lemma {:induction false} BossesKept(p: seq<nat>, q: seq<nat>, k: nat)
    requires k <= |p| == |q|
    requires forall i :: 0 <= i < k ==> (p[i] == i <==> q[i] == i)
    ensures Bosses(p, k) == Bosses(q, k)
  {
    if k > 0 { BossesKept(p, q, k - 1); }
  }

  lemma {:induction false} AllBosses(p: seq<nat>, k: nat)
    requires k <= |p| && forall i :: 0 <= i < |p| ==> p[i] == i
    ensures Bosses(p, k) == k
  {
    if k > 0 { AllBosses(p, k - 1); }
  }

  // ----- what connected means

  type Pair = (nat, nat)

  ghost predicate Linked(es: seq<Pair>, a: nat, b: nat)
  {
    (a, b) in es || (b, a) in es
  }

  /** A walk along joined pairs, in either direction. */
  ghost predicate Walk(es: seq<Pair>, w: seq<nat>)
  {
    |w| > 0 && forall i :: 0 <= i < |w| - 1 ==> Linked(es, w[i], w[i + 1])
  }

  ghost predicate Connected(es: seq<Pair>, a: nat, b: nat)
  {
    exists w :: Walk(es, w) && w[0] == a && w[|w| - 1] == b
  }

  lemma {:induction false} ConnectedSelf(es: seq<Pair>, a: nat)
    ensures Connected(es, a, a)
  {
    assert Walk(es, [a]);
  }

  lemma {:induction false} ConnectedMore(es: seq<Pair>, e: Pair, a: nat, b: nat)
    requires Connected(es, a, b)
    ensures Connected(es + [e], a, b)
  {
    var w :| Walk(es, w) && w[0] == a && w[|w| - 1] == b;
    assert Walk(es + [e], w);
  }

  lemma {:induction false} ConnectedTrans(es: seq<Pair>, a: nat, b: nat, c: nat)
    requires Connected(es, a, b) && Connected(es, b, c)
    ensures Connected(es, a, c)
  {
    var v :| Walk(es, v) && v[0] == a && v[|v| - 1] == b;
    var w :| Walk(es, w) && w[0] == b && w[|w| - 1] == c;
    var u := v + w[1..];
    forall i | 0 <= i < |u| - 1 ensures Linked(es, u[i], u[i + 1]) {
      if i < |v| - 1 { assert Linked(es, v[i], v[i + 1]); }
      else { assert Linked(es, w[i - |v| + 1], w[i - |v| + 2]); }
    }
    assert Walk(es, u);
  }

  lemma {:induction false} ConnectedOne(es: seq<Pair>, a: nat, b: nat)
    requires Linked(es, a, b)
    ensures Connected(es, a, b)
  {
    assert Walk(es, [a, b]);
  }

  lemma {:induction false} ConnectedBack(es: seq<Pair>, a: nat, b: nat)
    requires Connected(es, a, b)
    ensures Connected(es, b, a)
  {
    var w :| Walk(es, w) && w[0] == a && w[|w| - 1] == b;
    var u := seq(|w|, i requires 0 <= i < |w| => w[|w| - 1 - i]);
    forall i | 0 <= i < |u| - 1 ensures Linked(es, u[i], u[i + 1]) {
      assert Linked(es, w[|w| - 2 - i], w[|w| - 2 - i + 1]);
    }
    assert Walk(es, u);
  }

  // ----- the sets are the components of the joined pairs

  /** Each element is connected to its root, and joined pairs share theirs. */
  ghost predicate Faithful(p: seq<nat>, es: seq<Pair>)
  {
    && Upward(p)
    && (forall x: nat :: x < |p| ==> Connected(es, x, Root(p, x)))
    && (forall e :: e in es ==> e.0 < |p| && e.1 < |p| && Root(p, e.0) == Root(p, e.1))
  }

  lemma {:induction false} WalkSameRoot(p: seq<nat>, es: seq<Pair>, w: seq<nat>)
    requires Faithful(p, es) && Walk(es, w) && w[0] < |p|
    ensures w[|w| - 1] < |p| && Root(p, w[0]) == Root(p, w[|w| - 1])
  {
    if |w| > 1 {
      assert Linked(es, w[0], w[1]);
      assert Walk(es, w[1..]) by {
        forall i | 0 <= i < |w[1..]| - 1 ensures Linked(es, w[1..][i], w[1..][i + 1]) {
          assert Linked(es, w[i + 1], w[i + 1 + 1]);
        }
      }
      WalkSameRoot(p, es, w[1..]);
    }
  }

  /** Same root exactly when a walk of joined pairs leads from one to the other. */
  lemma {:induction false} SameRootIffConnected(p: seq<nat>, es: seq<Pair>, a: nat, b: nat)
    requires Faithful(p, es) && a < |p| && b < |p|
    ensures Root(p, a) == Root(p, b) <==> Connected(es, a, b)
  {
    if Root(p, a) == Root(p, b) {
      ConnectedBack(es, b, Root(p, b));
      ConnectedTrans(es, a, Root(p, a), b);
    }
    if Connected(es, a, b) {
      var w :| Walk(es, w) && w[0] == a && w[|w| - 1] == b;
      WalkSameRoot(p, es, w);
    }
  }

  ghost predicate JoinOf(e: Pair, sub: nat, boss: nat)
  {
    e == (sub, boss) || e == (boss, sub)
  }

  /** A link below an element of another set, boss or no longer one, joins the two sets. */
  lemma {:induction false} LinkKeepsFaithful(p: seq<nat>, es: seq<Pair>, sub: nat, boss: nat, e: Pair)
    requires Faithful(p, es) && sub < boss < |p| && p[sub] == sub && JoinOf(e, sub, boss)
    ensures Faithful(p[sub := boss], es + [e])
  {
    var q := p[sub := boss];
    forall x: nat | x < |p|
      ensures Upward(q) && Root(q, x) == if Root(p, x) == sub then Root(p, boss) else Root(p, x)
    {
      RootLink(p, sub, boss, x);
    }
    RootLink(p, sub, boss, sub);
    forall x: nat | x < |q| ensures Connected(es + [e], x, Root(q, x)) {
      LinkConnects(p, es, sub, boss, e, x);
    }
    assert Root(p, sub) == sub;
  }

  lemma {:induction false} LinkConnects(p: seq<nat>, es: seq<Pair>, sub: nat, boss: nat, e: Pair, x: nat)
    requires Faithful(p, es) && sub < boss < |p| && p[sub] == sub && JoinOf(e, sub, boss) && x < |p|
    ensures Connected(es + [e], x, if Root(p, x) == sub then Root(p, boss) else Root(p, x))
  {
    ConnectedMore(es, e, x, Root(p, x));
    if Root(p, x) == sub {
      assert e in es + [e];
      ConnectedOne(es + [e], sub, boss);
      ConnectedMore(es, e, boss, Root(p, boss));
      ConnectedTrans(es + [e], x, sub, boss);
      ConnectedTrans(es + [e], x, boss, Root(p, boss));
    }
  }

  /** No joined pair was connected by the pairs joined before it: the pairs form a forest. */
  ghost predicate Forest(es: seq<Pair>)
  {
    forall k :: 0 <= k < |es| ==> !Connected(es[..k], es[k].0, es[k].1)
  }

  lemma {:induction false} LinkKeepsForest(p: seq<nat>, es: seq<Pair>, sub: nat, boss: nat, e: Pair)
    requires Faithful(p, es) && Forest(es) && sub < boss < |p| && p[sub] == sub && JoinOf(e, sub, boss)
    ensures Forest(es + [e])
  {
    SameRootIffConnected(p, es, e.0, e.1);
    assert Root(p, sub) == sub && Root(p, boss) >= boss;
    var fs := es + [e];
    forall k | 0 <= k < |fs| ensures !Connected(fs[..k], fs[k].0, fs[k].1) {
      if k < |es| { assert fs[..k] == es[..k]; } else { assert fs[..k] == es; }
    }
  }

  lemma {:induction false} CompressKeepsFaithful(p: seq<nat>, es: seq<Pair>, l: nat, c: nat)
    requires Faithful(p, es) && l < c < |p| && p[l] != l && Root(p, c) == Root(p, l)
    ensures Faithful(p[l := c], es)
  {
    var q := p[l := c];
    forall x: nat | x < |p| ensures Upward(q) && Root(q, x) == Root(p, x) { RootCompress(p, l, c, x); }
    RootCompress(p, l, c, l);
    forall x: nat | x < |p| ensures Connected(es, x, Root(q, x)) { assert Connected(es, x, Root(p, x)); }
  }

  // ----- all interleavings

  /** Where a thread is: before the first or second isBoss of unify, before its compare-and-swap,
      before reading the subordinate's length, adding it to the boss's, and decrementing
      ncomponents; before the isBoss, the load or the compressing store of find. */
  datatype PC =
    | Idle
    | CheckOne(one: nat, two: nat)
    | CheckTwo(one: nat, two: nat)
    | Swapping(one: nat, two: nat)
    | LoadLen(sub: nat, boss: nat)
    | AddLen(boss: nat, len: nat)
    | Dropping
    | FindCheck(l: nat, cur: nat, compress: bool)
    | FindLoad(l: nat, cur: nat, compress: bool)
    | FindStore(l: nat, cur: nat)

  /** History: joined, the pairs of the unify calls whose compare-and-swap succeeded; taken, the
      elements whose length has been read to be added; lost, what was added to an element after
      its own length had been read. */
  datatype State = State(parent: seq<nat>, complen: seq<nat>, ncomponents: int, pc: seq<PC>,
                         joined: seq<Pair>, taken: seq<bool>, lost: seq<nat>)

  datatype Event =
    | StartUnify(i: nat, one: nat, two: nat)
    | StartFind(i: nat, l: nat, compress: bool)
    | Step(i: nat)

  predicate Sized(s: State) { |s.complen| == |s.taken| == |s.lost| == |s.parent| }

  predicate Enabled(s: State, e: Event)
  {
    && e.i < |s.pc| && Sized(s)
    && match e
       case StartUnify(i, one, two) => s.pc[i].Idle? && one < |s.parent| && two < |s.parent|
       case StartFind(i, l, _) => s.pc[i].Idle? && l < |s.parent|
       case Step(i) => InRange(s.pc[i], |s.parent|)
  }

  predicate InRange(c: PC, n: nat)
  {
    match c
    case Idle => false
    case CheckOne(one, two) => one < n && two < n
    case CheckTwo(one, two) => one < n && two < n
    case Swapping(one, two) => one < n && two < n
    case LoadLen(sub, boss) => sub < n && boss < n
    case AddLen(boss, _) => boss < n
    case Dropping => true
    case FindCheck(l, cur, _) => l < n && cur < n
    case FindLoad(l, cur, _) => l < n && cur < n
    case FindStore(l, cur) => l < n && cur < n
  }

  function Smaller(a: nat, b: nat): (r: nat) { if b < a then b else a }

  function Larger(a: nat, b: nat): (r: nat) { if b < a then a else b }

  function Advance(s: State, i: nat): (s': State)
    requires Sized(s) && i < |s.pc| && InRange(s.pc[i], |s.parent|)
    ensures Sized(s') && |s'.parent| == |s.parent| && |s'.pc| == |s.pc|
  {
    match s.pc[i]
    case CheckOne(one, two) => s.(pc := s.pc[i := if s.parent[one] == one then CheckTwo(one, two) else Idle])
    case CheckTwo(one, two) =>
      s.(pc := s.pc[i := if s.parent[two] == two && one != two then Swapping(one, two) else Idle])
    case Swapping(one, two) =>
      var sub, boss := Smaller(one, two), Larger(one, two);
      if s.parent[sub] == sub
      then s.(parent := s.parent[sub := boss], joined := s.joined + [(one, two)], pc := s.pc[i := LoadLen(sub, boss)])
      else s.(pc := s.pc[i := Idle])
    case LoadLen(sub, boss) => s.(taken := s.taken[sub := true], pc := s.pc[i := AddLen(boss, s.complen[sub])])
    case AddLen(boss, len) =>
      s.(complen := s.complen[boss := s.complen[boss] + len], pc := s.pc[i := Dropping],
         lost := if s.taken[boss] then s.lost[boss := s.lost[boss] + len] else s.lost)
    case Dropping => s.(ncomponents := s.ncomponents - 1, pc := s.pc[i := Idle])
    case FindCheck(l, cur, compress) =>
      s.(pc := s.pc[i := if s.parent[cur] != cur then FindLoad(l, cur, compress)
                         else if compress then FindStore(l, cur) else Idle])
    case FindLoad(l, cur, compress) => s.(pc := s.pc[i := FindCheck(l, s.parent[cur], compress)])
    case FindStore(l, cur) => s.(parent := s.parent[l := cur], pc := s.pc[i := Idle])
  }

  function Apply(s: State, e: Event): (s': State)
    requires Enabled(s, e)
    ensures Sized(s') && |s'.parent| == |s.parent| && |s'.pc| == |s.pc|
  {
    match e
    case StartUnify(i, one, two) => s.(pc := s.pc[i := CheckOne(one, two)])
    case StartFind(i, l, compress) => s.(pc := s.pc[i := FindCheck(l, l, compress)])
    case Step(i) => Advance(s, i)
  }

  function After(s: State, e: Event): (s': State) { if Enabled(s, e) then Apply(s, e) else s }

  function Exec(n: nat, threads: nat, events: seq<Event>): (s: State)
    ensures Sized(s) && |s.parent| == n && |s.pc| == threads
  {
    if events == []
    then State(seq(n, i => i), seq(n, _ => 1), n, seq(threads, _ => Idle), [], seq(n, _ => false), seq(n, _ => 0))
    else After(Exec(n, threads, events[..|events| - 1]), events[|events| - 1])
  }

  /** Unifies that have swapped and not yet decremented ncomponents. */
  predicate Swapped(c: PC) { c.LoadLen? || c.AddLen? || c.Dropping? }

  ghost function Droppers(pc: seq<PC>): (n: nat)
  {
    if pc == [] then 0 else (if Swapped(pc[0]) then 1 else 0) + Droppers(pc[1..])
  }

  /** What each thread knows: who has failed an isBoss is no boss ever after. */
  ghost predicate ThreadInv(p: seq<nat>, c: PC)
    requires Upward(p)
  {
    match c
    case Swapping(one, two) => one < |p| && two < |p| && one != two
    case FindCheck(l, cur, compress) =>
      l <= cur < |p| && Root(p, cur) == Root(p, l) && (l < cur ==> p[l] != l)
    case FindLoad(l, cur, compress) =>
      l <= cur < |p| && Root(p, cur) == Root(p, l) && p[l] != l && p[cur] != cur
    case FindStore(l, cur) => l <= cur < |p| && Root(p, cur) == Root(p, l) && (l < cur ==> p[l] != l)
    case _ => true
  }

  ghost predicate ThreadsInv(s: State)
    requires Upward(s.parent)
  {
    forall i :: 0 <= i < |s.pc| ==> ThreadInv(s.parent, s.pc[i])
  }

  ghost predicate SetsInv(s: State)
  {
    Faithful(s.parent, s.joined) && Forest(s.joined)
  }

  ghost predicate CountInv(s: State)
  {
    && |s.joined| + Bosses(s.parent, |s.parent|) == |s.parent|
    && s.ncomponents == Bosses(s.parent, |s.parent|) + Droppers(s.pc)
  }

  ghost predicate Inv(s: State)
  {
    Sized(s) && SetsInv(s) && CountInv(s) && ThreadsInv(s)
  }

  /** The store of a find that saw a boss, to an element that has been linked since: the element
      becomes a boss again. */
  ghost predicate Undoes(s: State, e: Event)
  {
    && e.Step? && Enabled(s, e) && s.pc[e.i].FindStore? && s.pc[e.i].l == s.pc[e.i].cur
    && s.parent[s.pc[e.i].l] != s.pc[e.i].l
  }

  lemma {:induction false} DroppersUpdate(pc: seq<PC>, i: nat, c: PC)
    requires i < |pc|
    ensures Droppers(pc[i := c])
         == Droppers(pc) - (if Swapped(pc[i]) then 1 else 0) + (if Swapped(c) then 1 else 0)
  {
    if i == 0 {
      assert pc[i := c][1..] == pc[1..];
    } else {
      assert pc[i := c][1..] == pc[1..][i - 1 := c];
      DroppersUpdate(pc[1..], i - 1, c);
    }
  }

  lemma {:induction false} StepKeepsSets(s: State, i: nat)
    requires SetsInv(s) && ThreadsInv(s) && Enabled(s, Step(i)) && !Undoes(s, Step(i))
    ensures SetsInv(Advance(s, i))
  {
    var p := s.parent;
    assert ThreadInv(p, s.pc[i]);
    match s.pc[i] {
      case Swapping(one, two) =>
        var sub, boss := Smaller(one, two), Larger(one, two);
        if p[sub] == sub {
          LinkKeepsFaithful(p, s.joined, sub, boss, (one, two));
          LinkKeepsForest(p, s.joined, sub, boss, (one, two));
        }
      case FindStore(l, cur) =>
        if l < cur { CompressKeepsFaithful(p, s.joined, l, cur); } else { assert p[l := cur] == p; }
      case _ =>
    }
  }

  lemma {:induction false} StepKeepsCount(s: State, i: nat)
    requires SetsInv(s) && CountInv(s) && ThreadsInv(s) && Enabled(s, Step(i)) && !Undoes(s, Step(i))
    ensures CountInv(Advance(s, i))
  {
    var p, s' := s.parent, Advance(s, i);
    assert ThreadInv(p, s.pc[i]);
    DroppersUpdate(s.pc, i, s'.pc[i]);
    match s.pc[i] {
      case Swapping(one, two) =>
        var sub, boss := Smaller(one, two), Larger(one, two);
        if p[sub] == sub { BossesLink(p, sub, boss, |p|); }
      case FindStore(l, cur) => BossesKept(p, s'.parent, |p|);
      case _ =>
    }
  }

  /** A link or a compression by one thread leaves what another knows true. */
  lemma {:induction false} LinkKeepsThread(p: seq<nat>, sub: nat, boss: nat, c: PC)
    requires Upward(p) && sub < boss < |p| && p[sub] == sub && ThreadInv(p, c)
    ensures Upward(p[sub := boss]) && ThreadInv(p[sub := boss], c)
  {
    RootLink(p, sub, boss, sub);
    if c.FindCheck? || c.FindLoad? || c.FindStore? {
      RootLink(p, sub, boss, c.l);
      RootLink(p, sub, boss, c.cur);
    }
  }

  lemma {:induction false} CompressKeepsThread(p: seq<nat>, l: nat, cur: nat, c: PC)
    requires Upward(p) && l < cur < |p| && p[l] != l && Root(p, cur) == Root(p, l) && ThreadInv(p, c)
    ensures Upward(p[l := cur]) && ThreadInv(p[l := cur], c)
  {
    RootCompress(p, l, cur, l);
    if c.FindCheck? || c.FindLoad? || c.FindStore? {
      RootCompress(p, l, cur, c.l);
      RootCompress(p, l, cur, c.cur);
    }
  }

  lemma {:induction false} StepKeepsThread(s: State, i: nat, j: nat)
    requires Upward(s.parent) && ThreadsInv(s) && Enabled(s, Step(i)) && !Undoes(s, Step(i)) && j < |s.pc|
    ensures var s' := Advance(s, i); Upward(s'.parent) && ThreadInv(s'.parent, s'.pc[j])
  {
    var p, s' := s.parent, Advance(s, i);
    assert ThreadInv(p, s.pc[i]) && ThreadInv(p, s.pc[j]);
    match s.pc[i] {
      case Swapping(one, two) =>
        var sub, boss := Smaller(one, two), Larger(one, two);
        if p[sub] == sub { LinkKeepsThread(p, sub, boss, s'.pc[j]); }
      case FindStore(l, cur) =>
        if l < cur { CompressKeepsThread(p, l, cur, s'.pc[j]); } else { assert p[l := cur] == p; }
      case _ =>
    }
  }

  lemma {:induction false} StepKeepsInv(s: State, i: nat)
    requires Inv(s) && Enabled(s, Step(i)) && !Undoes(s, Step(i))
    ensures Inv(Advance(s, i))
  {
    StepKeepsSets(s, i);
    StepKeepsCount(s, i);
    var s' := Advance(s, i);
    forall j | 0 <= j < |s'.pc| ensures ThreadInv(s'.parent, s'.pc[j]) { StepKeepsThread(s, i, j); }
  }

  lemma {:induction false} StartKeepsInv(s: State, e: Event)
    requires Inv(s) && Enabled(s, e) && !e.Step?
    ensures Inv(Apply(s, e))
  {
    var s' := Apply(s, e);
    DroppersUpdate(s.pc, e.i, s'.pc[e.i]);
    forall j | 0 <= j < |s'.pc| ensures ThreadInv(s'.parent, s'.pc[j]) {
      if j != e.i { assert ThreadInv(s.parent, s.pc[j]); }
    }
  }

  lemma {:induction false} InitInv(n: nat, threads: nat)
    ensures Inv(Exec(n, threads, []))
  {
    var s := Exec(n, threads, []);
    AllBosses(s.parent, n);
    NoDroppers(s.pc);
    forall x: nat | x < n ensures Connected([], x, Root(s.parent, x)) { ConnectedSelf([], x); }
  }

  lemma {:induction false} NoDroppers(pc: seq<PC>)
    requires forall i :: 0 <= i < |pc| ==> pc[i] == Idle
    ensures Droppers(pc) == 0
  {
    if pc != [] { NoDroppers(pc[1..]); }
  }

  lemma {:induction false} AfterKeepsInv(s: State, e: Event)
    requires Inv(s) && !Undoes(s, e)
    ensures Inv(After(s, e))
  {
    if Enabled(s, e) {
      if e.Step? { StepKeepsInv(s, e.i); } else { StartKeepsInv(s, e); }
    }
  }

  // ----- exactly when the sets are right

  /** No step of the run undoes a link. */
  ghost predicate Clean(n: nat, threads: nat, events: seq<Event>)
  {
    events == [] ||
    var before := events[..|events| - 1];
    Clean(n, threads, before) && !Undoes(Exec(n, threads, before), events[|events| - 1])
  }

  /** The sets are the components of the joined pairs after every prefix of the run. */
  ghost predicate Sound(n: nat, threads: nat, events: seq<Event>)
  {
    SetsInv(Exec(n, threads, events)) && (events == [] || Sound(n, threads, events[..|events| - 1]))
  }

  lemma {:induction false} InvHolds(n: nat, threads: nat, events: seq<Event>)
    requires Clean(n, threads, events)
    ensures Inv(Exec(n, threads, events))
  {
    if events == [] {
      InitInv(n, threads);
    } else {
      var before := events[..|events| - 1];
      InvHolds(n, threads, before);
      AfterKeepsInv(Exec(n, threads, before), events[|events| - 1]);
    }
  }

  /** An element that is made a boss again leaves the set it was joined to. */
  lemma {:induction false} UndoBreaksSets(s: State, e: Event)
    requires Inv(s) && Undoes(s, e)
    ensures !SetsInv(After(s, e))
  {
    var p, l, s' := s.parent, s.pc[e.i].l, After(s, e);
    var r, q := Root(p, l), s'.parent;
    assert q == p[l := l] && r > l && q[r] == r && Upward(q);
    assert Root(q, l) == l && Root(q, r) == r;
    assert Connected(s.joined, l, r);
    if Faithful(q, s.joined) { SameRootIffConnected(q, s.joined, l, r); }
  }

  /** The sets are right after every prefix of a run if and only if no step stores an element into
      itself after it was linked. */
  lemma {:induction false} SoundIffClean(n: nat, threads: nat, events: seq<Event>)
    ensures Sound(n, threads, events) <==> Clean(n, threads, events)
  {
    if events == [] {
      InvHolds(n, threads, events);
    } else {
      var before, e := events[..|events| - 1], events[|events| - 1];
      SoundIffClean(n, threads, before);
      if Clean(n, threads, before) {
        InvHolds(n, threads, before);
        var s := Exec(n, threads, before);
        if Undoes(s, e) { UndoBreaksSets(s, e); } else { AfterKeepsInv(s, e); }
      }
    }
  }

  /** In every such run: two elements are in one set exactly when successful unifies connect
      them, those unifies form a forest, and ncomponents counts the sets, plus the unifies that
      have swapped and not yet decremented. */
  lemma {:induction false} SetsAreComponents(n: nat, threads: nat, events: seq<Event>)
    requires Clean(n, threads, events)
    ensures var s := Exec(n, threads, events);
            && Upward(s.parent)
            && (forall a: nat, b: nat :: a < n && b < n ==>
                  (Root(s.parent, a) == Root(s.parent, b) <==> Connected(s.joined, a, b)))
            && Forest(s.joined)
            && s.ncomponents - Droppers(s.pc) == Bosses(s.parent, n) == n - |s.joined|
  {
    InvHolds(n, threads, events);
    var s := Exec(n, threads, events);
    forall a: nat, b: nat | a < n && b < n
      ensures Root(s.parent, a) == Root(s.parent, b) <==> Connected(s.joined, a, b)
    {
      SameRootIffConnected(s.parent, s.joined, a, b);
    }
  }

  /** find answers with the root its element has at the moment of its last isBoss. */
  lemma {:induction false} FindAnswersRoot(n: nat, threads: nat, events: seq<Event>, i: nat)
    requires Clean(n, threads, events) && i < threads
    requires var s := Exec(n, threads, events);
             s.pc[i].FindCheck? && s.pc[i].cur < n && s.parent[s.pc[i].cur] == s.pc[i].cur
    ensures var s := Exec(n, threads, events);
            Upward(s.parent) && s.pc[i].l < n && s.pc[i].cur == Root(s.parent, s.pc[i].l)
  {
    InvHolds(n, threads, events);
    var s := Exec(n, threads, events);
    assert ThreadInv(s.parent, s.pc[i]);
  }

  /** What is left of a find, whatever other threads do in between. */
  ghost function FindLeft(n: nat, c: PC): (m: int)
  {
    match c
    case FindCheck(_, cur, _) => 2 * (n - cur) + 2
    case FindLoad(_, cur, _) => 2 * (n - cur) + 1
    case FindStore(_, _) => 1
    case _ => 0
  }

  /** Each step of a find brings it nearer to its end, in every interleaving. */
  lemma {:induction false} FindProgress(n: nat, threads: nat, events: seq<Event>, i: nat)
    requires Clean(n, threads, events) && i < threads
    requires var c := Exec(n, threads, events).pc[i]; c.FindCheck? || c.FindLoad? || c.FindStore?
    ensures var s := Exec(n, threads, events);
            && Enabled(s, Step(i))
            && 0 <= FindLeft(n, Advance(s, i).pc[i]) < FindLeft(n, s.pc[i])
  {
    InvHolds(n, threads, events);
    var s := Exec(n, threads, events);
    assert ThreadInv(s.parent, s.pc[i]);
    assert s.pc[i].FindLoad? ==> s.parent[s.pc[i].cur] > s.pc[i].cur;
  }

  // ----- two ways to call find that keep the sets right

  /** Compressing finds are only called on elements that are not bosses. */
  ghost predicate NeverOnBosses(n: nat, threads: nat, events: seq<Event>)
  {
    events == [] ||
    var before, e := events[..|events| - 1], events[|events| - 1];
    && NeverOnBosses(n, threads, before)
    && (e.StartFind? && e.compress && e.l < n ==> Exec(n, threads, before).parent[e.l] != e.l)
  }

  ghost predicate BelowBoss(p: seq<nat>, c: PC)
  {
    && (c.FindCheck? && c.compress ==> c.l < |p| && p[c.l] != c.l)
    && (c.FindLoad? && c.compress ==> c.l < |p| && p[c.l] != c.l)
    && (c.FindStore? ==> c.l != c.cur)
  }

  lemma {:induction false} StaysBelow(s: State, e: Event, x: nat)
    requires Inv(s) && !Undoes(s, e) && x < |s.parent| && s.parent[x] != x
    ensures After(s, e).parent[x] != x
  {
    if e.Step? && Enabled(s, e) { assert ThreadInv(s.parent, s.pc[e.i]); }
  }

  lemma {:induction false} BelowBossKept(s: State, e: Event, j: nat)
    requires Inv(s) && !Undoes(s, e) && j < |s.pc| && BelowBoss(s.parent, s.pc[j])
    requires e.StartFind? && e.compress && e.l < |s.parent| ==> s.parent[e.l] != e.l
    ensures BelowBoss(After(s, e).parent, After(s, e).pc[j])
  {
    var c := s.pc[j];
    if c.FindCheck? || c.FindLoad? {
      assert ThreadInv(s.parent, c);
      if s.parent[c.l] != c.l { StaysBelow(s, e, c.l); }
    }
    OwnStaysBelow(s.parent, s, e, j);
  }

  lemma {:induction false} OwnStaysBelow(p: seq<nat>, s: State, e: Event, j: nat)
    requires p == s.parent && j < |s.pc| && BelowBoss(p, s.pc[j])
    requires e.StartFind? && e.compress && e.l < |p| ==> p[e.l] != e.l
    ensures BelowBoss(p, After(s, e).pc[j])
  {
  }

  /** Never calling a compressing find on a boss is enough. */
  lemma {:induction false} NeverOnBossesIsClean(n: nat, threads: nat, events: seq<Event>)
    requires NeverOnBosses(n, threads, events)
    ensures Clean(n, threads, events)
    ensures forall j: nat :: j < threads ==> BelowBoss(Exec(n, threads, events).parent, Exec(n, threads, events).pc[j])
  {
    if events != [] {
      var before, e := events[..|events| - 1], events[|events| - 1];
      NeverOnBossesIsClean(n, threads, before);
      InvHolds(n, threads, before);
      var s := Exec(n, threads, before);
      if e.Step? && e.i < threads { assert BelowBoss(s.parent, s.pc[e.i]); }
      forall j: nat | j < threads ensures BelowBoss(After(s, e).parent, After(s, e).pc[j]) { BelowBossKept(s, e, j); }
    }
  }

  predicate InUnify(c: PC) { c.CheckOne? || c.CheckTwo? || c.Swapping? }

  /** A compressing find that was called on a boss and has not stored. */
  predicate OnBoss(p: seq<nat>, c: PC)
  {
    || (c.FindStore? && c.l == c.cur)
    || (c.FindCheck? && c.compress && c.l == c.cur && c.l < |p| && p[c.l] == c.l)
  }

  ghost predicate Alone(s: State)
  {
    forall i, j :: 0 <= i < |s.pc| && 0 <= j < |s.pc| && InUnify(s.pc[i]) ==> !OnBoss(s.parent, s.pc[j])
  }

  /** At no time is such a find under way together with a unify that may still link. */
  ghost predicate Phased(n: nat, threads: nat, events: seq<Event>)
  {
    && Alone(Exec(n, threads, events))
    && (events == [] || Phased(n, threads, events[..|events| - 1]))
  }

  /** A pending store of an element into itself finds it a boss. */
  ghost predicate StoreIsIdle(p: seq<nat>, c: PC)
  {
    c.FindStore? && c.l == c.cur ==> c.l < |p| && p[c.l] == c.l
  }

  lemma {:induction false} StoreStaysIdle(s: State, e: Event, j: nat)
    requires Inv(s) && !Undoes(s, e) && j < |s.pc| && StoreIsIdle(s.parent, s.pc[j])
    requires forall i :: 0 <= i < |s.pc| && InUnify(s.pc[i]) ==> !OnBoss(s.parent, s.pc[j])
    ensures StoreIsIdle(After(s, e).parent, After(s, e).pc[j])
  {
    if e.Step? && Enabled(s, e) {
      assert ThreadInv(s.parent, s.pc[e.i]) && ThreadInv(s.parent, s.pc[j]);
      assert InUnify(s.pc[e.i]) ==> !OnBoss(s.parent, s.pc[j]);
    }
  }

  /** Calling them on bosses only while no unify is under way is enough too. */
  lemma {:induction false} PhasedIsClean(n: nat, threads: nat, events: seq<Event>)
    requires Phased(n, threads, events)
    ensures Clean(n, threads, events)
    ensures forall j: nat :: j < threads ==> StoreIsIdle(Exec(n, threads, events).parent, Exec(n, threads, events).pc[j])
  {
    if events != [] {
      var before, e := events[..|events| - 1], events[|events| - 1];
      PhasedIsClean(n, threads, before);
      InvHolds(n, threads, before);
      var s := Exec(n, threads, before);
      if e.Step? && e.i < threads { assert StoreIsIdle(s.parent, s.pc[e.i]); }
      forall j: nat | j < threads ensures StoreIsIdle(After(s, e).parent, After(s, e).pc[j]) { StoreStaysIdle(s, e, j); }
    }
  }

  // ----- a compressing find on a boss, overtaken by a unify

  lemma {:induction false} ExecNext(n: nat, threads: nat, es: seq<Event>, k: nat)
    requires k < |es|
    ensures Exec(n, threads, es[..k + 1]) == After(Exec(n, threads, es[..k]), es[k])
  {
    assert es[..k + 1][..|es[..k + 1]| - 1] == es[..k];
  }

  /** A compressing find has seen that 0 is a boss, then a unify links 0 below 1, then the find
      stores. */
  const LATE_STORE: seq<Event> :=
    [StartFind(0, 0, true), Step(0), StartUnify(1, 0, 1), Step(1), Step(1), Step(1), Step(0)]

  ghost predicate At(s: State, first: nat, a: PC, b: PC, joined: seq<Pair>)
  {
    && Sized(s) && |s.parent| >= 2 && s.parent[0] == first && s.parent[1] == 1
    && |s.pc| >= 2 && s.pc[0] == a && s.pc[1] == b && s.joined == joined
  }

  ghost function LateStore(n: nat, threads: nat, k: nat): (s: State)
    requires k <= 7
  {
    Exec(n, threads, LATE_STORE[..k])
  }

  lemma {:induction false} LateStoreNext(n: nat, threads: nat, k: nat)
    requires k < 7
    ensures LateStore(n, threads, k + 1) == After(LateStore(n, threads, k), LATE_STORE[k])
  {
    ExecNext(n, threads, LATE_STORE, k);
  }

  lemma {:induction false} LateFindBegins(n: nat, threads: nat)
    requires n >= 2 && threads >= 2
    ensures At(LateStore(n, threads, 2), 0, FindStore(0, 0), Idle, [])
  {
    LateStoreNext(n, threads, 0);
    assert At(LateStore(n, threads, 0), 0, Idle, Idle, []);
    assert At(LateStore(n, threads, 1), 0, FindCheck(0, 0, true), Idle, []);
    LateStoreNext(n, threads, 1);
  }

  lemma {:induction false} LateStoreBegins(n: nat, threads: nat)
    requires n >= 2 && threads >= 2
    ensures At(LateStore(n, threads, 4), 0, FindStore(0, 0), CheckTwo(0, 1), [])
  {
    LateFindBegins(n, threads);
    LateStoreNext(n, threads, 2);
    assert At(LateStore(n, threads, 3), 0, FindStore(0, 0), CheckOne(0, 1), []);
    LateStoreNext(n, threads, 3);
  }

  /** The compressing store of a find that began on a boss undoes a unify that came between. */
  lemma {:induction false} LateStoreLosesUnify(n: nat, threads: nat)
    requires n >= 2 && threads >= 2
    ensures var s := Exec(n, threads, LATE_STORE);
            s.joined == [(0, 1)] && s.parent[0] == 0 && s.parent[1] == 1
    ensures !Sound(n, threads, LATE_STORE)
  {
    LateStoreBegins(n, threads);
    LateStoreNext(n, threads, 4);
    assert At(LateStore(n, threads, 5), 0, FindStore(0, 0), Swapping(0, 1), []);
    LateStoreNext(n, threads, 5);
    assert At(LateStore(n, threads, 6), 1, FindStore(0, 0), LoadLen(0, 1), [(0, 1)]);
    LateStoreNext(n, threads, 6);
    assert LATE_STORE[..7] == LATE_STORE;
    TwoBossesJoined(Exec(n, threads, LATE_STORE));
  }

  lemma {:induction false} TwoBossesJoined(s: State)
    requires |s.parent| >= 2 && s.parent[0] == 0 && s.parent[1] == 1 && s.joined == [(0, 1)]
    ensures !SetsInv(s)
  {
    assert (0, 1) in s.joined;
  }

  // ----- one thread at a time

  /** What the first k elements that are in the set of b weigh. */
  ghost function Weight(p: seq<nat>, w: seq<nat>, b: nat, k: nat): (n: nat)
    requires Upward(p) && k <= |p| == |w|
  {
    if k == 0 then 0 else Weight(p, w, b, k - 1) + (if Root(p, k - 1) == b then w[k - 1] else 0)
  }

  lemma {:induction false} WeightLink(p: seq<nat>, w: seq<nat>, sub: nat, boss: nat, b: nat, k: nat)
    requires Upward(p) && sub < boss < |p| == |w| && p[sub] == sub && k <= |p|
    ensures Upward(p[sub := boss])
    ensures Weight(p[sub := boss], w, b, k)
         == if b == Root(p, boss) then Weight(p, w, b, k) + Weight(p, w, sub, k)
            else if b == sub then 0 else Weight(p, w, b, k)
  {
    RootLink(p, sub, boss, sub);
    assert Root(p, boss) >= boss;
    if k > 0 {
      RootLink(p, sub, boss, k - 1);
      WeightLink(p, w, sub, boss, b, k - 1);
    }
  }

  lemma {:induction false} WeightKept(p: seq<nat>, q: seq<nat>, w: seq<nat>, b: nat, k: nat)
    requires Upward(p) && Upward(q) && k <= |p| == |q| == |w|
    requires forall x: nat :: x < |p| ==> Root(p, x) == Root(q, x)
    ensures Weight(p, w, b, k) == Weight(q, w, b, k)
  {
    if k > 0 { WeightKept(p, q, w, b, k - 1); }
  }

  lemma {:induction false} WeightAlone(p: seq<nat>, w: seq<nat>, b: nat, k: nat)
    requires k <= |p| == |w| && (forall i :: 0 <= i < |p| ==> p[i] == i)
    ensures Weight(p, w, b, k) == if b < k then w[b] else 0
  {
    if k > 0 { WeightAlone(p, w, b, k - 1); }
  }

  function Ones(n: nat): (w: seq<nat>) { seq(n, _ => 1) }

  /** How many elements are in the set of b. */
  ghost function Members(p: seq<nat>, b: nat): (n: nat)
    requires Upward(p)
  {
    Weight(p, Ones(|p|), b, |p|)
  }

  ghost predicate Lengths(p: seq<nat>, len: seq<nat>)
    requires Upward(p)
  {
    |len| == |p| && forall b :: 0 <= b < |p| && p[b] == b ==> len[b] == Members(p, b)
  }

  lemma {:induction false} LengthsLink(p: seq<nat>, len: seq<nat>, sub: nat, boss: nat)
    requires Upward(p) && Lengths(p, len) && sub < boss < |p| && p[sub] == sub && p[boss] == boss
    ensures Upward(p[sub := boss]) && Lengths(p[sub := boss], len[boss := len[boss] + len[sub]])
  {
    RootLink(p, sub, boss, sub);
    var q, len' := p[sub := boss], len[boss := len[boss] + len[sub]];
    forall b | 0 <= b < |q| && q[b] == b ensures len'[b] == Members(q, b) {
      WeightLink(p, Ones(|p|), sub, boss, b, |p|);
    }
  }

  /** The words of a component space, and what a unify and a find leave of them. */
  datatype Space = Space(parent: seq<nat>, complen: seq<nat>, ncomponents: int)

  function Unified(w: Space, one: nat, two: nat): (w': Space)
    requires one < |w.parent| == |w.complen| && two < |w.parent|
  {
    if w.parent[one] != one || w.parent[two] != two || one == two then w else
    var sub, boss := Smaller(one, two), Larger(one, two);
    Space(w.parent[sub := boss], w.complen[boss := w.complen[boss] + w.complen[sub]], w.ncomponents - 1)
  }

  ghost function Found(p: seq<nat>, l: nat, compress: bool): (p': seq<nat>)
    requires Upward(p) && l < |p|
  {
    if compress then p[l := Root(p, l)] else p
  }

  class ComponentSpace {
    const ele2comp: array<nat>
    const complen: array<nat>
    var ncomponents: nat

    ghost predicate Valid()
      reads this, ele2comp, complen
    {
      && ele2comp != complen && Upward(ele2comp[..]) && Lengths(ele2comp[..], complen[..])
      && ncomponents == Bosses(ele2comp[..], ele2comp.Length)
    }

    constructor (nelements: nat)
      ensures Valid() && fresh(ele2comp) && fresh(complen)
      ensures ele2comp.Length == nelements == ncomponents
      ensures forall i :: 0 <= i < nelements ==> ele2comp[i] == i
    {
      ele2comp := new nat[nelements];
      complen := new nat[nelements];
      ncomponents := nelements;
      new;
      for id := 0 to nelements
        invariant ncomponents == nelements
        invariant forall i :: 0 <= i < id ==> ele2comp[i] == i && complen[i] == 1
      {
        complen[id] := 1;
        ele2comp[id] := id;
      }
      AllBosses(ele2comp[..], nelements);
      forall b | 0 <= b < nelements ensures complen[..][b] == Members(ele2comp[..], b) {
        WeightAlone(ele2comp[..], Ones(nelements), b, nelements);
      }
    }

    /** The boss of an element; compression changes no set. */
    method Find(lelement: nat, compresspath: bool) returns (element: nat)
      requires Valid() && lelement < ele2comp.Length
      modifies ele2comp
      ensures Valid() && element == old(Root(ele2comp[..], lelement))
      ensures forall x: nat :: x < ele2comp.Length ==> Root(ele2comp[..], x) == old(Root(ele2comp[..], x))
      ensures ele2comp[..] == Found(old(ele2comp[..]), lelement, compresspath)
    {
      element := lelement;
      while ele2comp[element] != element
        invariant lelement <= element < ele2comp.Length
        invariant Root(ele2comp[..], element) == Root(ele2comp[..], lelement)
        invariant element == lelement || ele2comp[lelement] != lelement
        invariant ele2comp[..] == old(ele2comp[..])
        decreases ele2comp.Length - element
      {
        element := ele2comp[element];
      }
      ghost var p := ele2comp[..];
      if compresspath && element != lelement {
        CompressKeeps(p, complen[..], lelement, element);
      }
      if compresspath {
        ele2comp[lelement] := element;
        assert ele2comp[..] == p[lelement := element];
      }
      assert element == lelement ==> p[lelement := element] == p;
    }

    /** Joins the sets of two distinct bosses, the larger id staying boss; anything else is refused
        and changes nothing. */
    method Unify(one: nat, two: nat) returns (joined: bool)
      requires Valid() && one < ele2comp.Length && two < ele2comp.Length
      modifies this, ele2comp, complen
      ensures Valid()
      ensures Space(ele2comp[..], complen[..], ncomponents) == Unified(old(Space(ele2comp[..], complen[..], ncomponents)), one, two)
      ensures joined <==> old(ele2comp[one]) == one && old(ele2comp[two]) == two && one != two
      ensures !joined ==> ele2comp[..] == old(ele2comp[..]) && complen[..] == old(complen[..])
                          && ncomponents == old(ncomponents)
      ensures joined ==> ncomponents == old(ncomponents) - 1
      ensures joined ==> forall x: nat :: x < ele2comp.Length ==>
                Root(ele2comp[..], x) == if old(Root(ele2comp[..], x)) in {one, two} then Larger(one, two)
                                         else old(Root(ele2comp[..], x))
    {
      if ele2comp[one] != one { return false; }
      if ele2comp[two] != two { return false; }
      if one == two { return false; }
      var boss: nat, subordinate: nat := two, one;
      if boss < subordinate { boss, subordinate := one, two; }
      ghost var p, len := ele2comp[..], complen[..];
      BossesLink(p, subordinate, boss, |p|);
      LengthsLink(p, len, subordinate, boss);
      forall x: nat | x < |p|
        ensures Root(p[subordinate := boss], x) == if Root(p, x) == subordinate then boss else Root(p, x)
      {
        RootLink(p, subordinate, boss, x);
      }
      ele2comp[subordinate] := boss;
      complen[boss] := complen[boss] + complen[subordinate];
      ncomponents := ncomponents - 1;
      assert ele2comp[..] == p[subordinate := boss] && complen[..] == len[boss := len[boss] + len[subordinate]];
      joined := true;
    }
  }

  lemma {:induction false} CompressKeeps(p: seq<nat>, len: seq<nat>, l: nat, c: nat)
    requires Upward(p) && Lengths(p, len) && l < c < |p| && p[l] != l && p[c] == c && Root(p, l) == c
    ensures var q := p[l := c];
            && Upward(q) && (forall x: nat :: x < |p| ==> Root(q, x) == Root(p, x))
            && Lengths(q, len) && Bosses(q, |q|) == Bosses(p, |p|)
  {
    var q := p[l := c];
    RootCompress(p, l, c, l);
    forall x: nat | x < |p| ensures Root(q, x) == Root(p, x) { RootCompress(p, l, c, x); }
    forall b | 0 <= b < |q| && q[b] == b ensures len[b] == Members(q, b) { WeightKept(p, q, Ones(|p|), b, |p|); }
    BossesKept(p, q, |p|);
  }
}
