/** Walks of breadth-first search are short: a node that is reached at all is reached by a walk with
    fewer edges than there are nodes, so in any graph of fewer than 2^30 - 1 nodes the label infinity
    tells exactly the nodes that are not reached. */
module BfsLevels {
  import opened Bfs
  import opened BfsTermination

  /** The length of the shortest walk to v. */
  ghost predicate Level(l: Layout, v: nat, k: nat)
    requires WellFormed(l)
  {
    Reach(l, v, k) && forall j: nat :: j < k ==> !Reach(l, v, j)
  }

  lemma {:induction false} LevelExists(l: Layout, v: nat, k: nat) returns (j: nat)
    requires WellFormed(l) && Reach(l, v, k)
    ensures j <= k && Level(l, v, j)
  {
    j := k;
    if i: nat :| i < k && Reach(l, v, i) { j := LevelExists(l, v, i); }
  }

  /** The node before the last on a shortest walk is one level below. */
  lemma {:induction false} LevelBelow(l: Layout, v: nat, k: nat) returns (u: nat)
    requires WellFormed(l) && Level(l, v, k) && k > 0
    ensures u < l.nodes && Level(l, u, k - 1)
  {
    var p: nat, j: nat :| p < |l.gid| && j < |l.edges[p]| && l.gid[l.edges[p][j]] == v && Reach(l, l.gid[p], k - 1);
    u := l.gid[p];
    forall i: nat | i < k - 1 ensures !Reach(l, u, i) {
      if Reach(l, u, i) { assert Reach(l, v, i + 1); }
    }
  }

  /** A node of level k has a node of each lower level behind it, so there are more than k nodes. */
  lemma {:induction false} NodesBehind(l: Layout, v: nat, k: nat) returns (vs: set<nat>)
    requires WellFormed(l) && v < l.nodes && Level(l, v, k)
    ensures |vs| == k + 1 && forall u :: u in vs ==> u < l.nodes && exists j: nat :: j <= k && Level(l, u, j)
    decreases k
  {
    vs := {v};
    if k > 0 {
      var u := LevelBelow(l, v, k);
      var us := NodesBehind(l, u, k - 1);
      assert v !in us;
      vs := us + {v};
    }
  }

  ghost function UpTo(n: nat): (r: set<nat>)
    ensures |r| == n && forall k: nat :: k in r <==> k < n
  {
    if n == 0 then {} else UpTo(n - 1) + {n - 1}
  }

  lemma {:induction false} SubsetSize(a: set<nat>, b: set<nat>)
    requires a <= b
    ensures |a| <= |b|
  {
    assert |b - a| == |b| - |a|;
  }

  /** A node that is reached is reached by a walk with fewer edges than there are nodes. */
  lemma {:induction false} ShortWalk(l: Layout, v: nat, k: nat) returns (j: nat)
    requires WellFormed(l) && v < l.nodes && Reach(l, v, k)
    ensures j < l.nodes && Reach(l, v, j)
  {
    j := LevelExists(l, v, k);
    var vs := NodesBehind(l, v, j);
    SubsetSize(vs, UpTo(l.nodes));
  }

  /** In a graph of at most 2^30 - 1 nodes, a run of the program that cannot go on has the label
      2^30 - 1 on exactly the proxies whose nodes no walk reaches. */
  lemma {:induction false} InfinityIsUnreached(l: Layout, delta: nat, events: seq<Event>, p: nat)
    requires WellFormed(l) && delta < 0x1_0000_0000 && IsRun(l, delta, events) && p < |l.gid|
    requires l.nodes <= 0x3fff_ffff && forall e :: !IsRun(l, delta, events + [e])
    ensures Exec(l, events).distCurrent[p] == 0x3fff_ffff <==> forall k: nat :: !Reach(l, l.gid[p], k)
  {
    EveryRunIsExact(l, delta, events, p);
    assert INFINITY == 0x3fff_ffff;
    var d := Exec(l, events).distCurrent[p];
    if d < INFINITY {
      assert Reach(l, l.gid[p], d);
    } else {
      forall k: nat ensures !Reach(l, l.gid[p], k) {
        if Reach(l, l.gid[p], k) { var j := ShortWalk(l, l.gid[p], k); }
      }
    }
  }
}
