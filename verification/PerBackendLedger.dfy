/** What the callers of the per-thread storage allocator hold, and what lies on its free lists, read
    off the calls and their results, against the machine of all interleavings. */
module PerBackendLedger {
  import opened Arith
  import opened PerBackend
  import opened Wrappers

  // ----- the calls

  /** The class thread i asked for in its last allocOffset. */
  ghost function Asked(page: nat, threads: nat, events: seq<Event>, i: nat): (log: nat)
  {
    if events == [] then 0 else
    var before, e := events[..|events| - 1], events[|events| - 1];
    if e.StartAlloc? && e.i == i && Enabled(Exec(page, threads, before), e) then e.log
    else Asked(page, threads, before, i)
  }

  /** The block thread i gave to its last deallocOffset. */
  ghost function GivenBack(page: nat, threads: nat, events: seq<Event>, i: nat): (b: Block)
  {
    if events == [] then Block(0, 0) else
    var before, e := events[..|events| - 1], events[|events| - 1];
    if e.StartFree? && e.i == i && Enabled(Exec(page, threads, before), e) then e.b
    else GivenBack(page, threads, before, i)
  }

  /** What allocOffset returns by an event: the old value of nextLoc where that and the size fit the
      page, or the offset of the free block found; with the size that was asked for. */
  ghost function ReturnedBy(page: nat, s: State, e: Event, asked: nat): (r: Option<Block>)
  {
    if !Enabled(s, e) then None else
    match e
    case Bump(i) => if (s.nextLoc + Pow2(asked)) % UINT32 <= page then Some(Block(s.nextLoc, asked)) else None
    case Search(i, b) => Some(Block(b.off, asked))
    case _ => None
  }

  ghost function Returned(page: nat, threads: nat, events: seq<Event>, e: Event): (r: Option<Block>)
  {
    ReturnedBy(page, Exec(page, threads, events), e, Asked(page, threads, events, e.i))
  }

  ghost function HeldAfter(page: nat, s: State, e: Event, asked: nat, held: set<Block>): (held': set<Block>)
  {
    var r := ReturnedBy(page, s, e, asked);
    if r.Some? then held + {r.value}
    else if e.StartFree? && Enabled(s, e) then held - {e.b}
    else held
  }

  /** The blocks returned to callers and not yet given back. */
  ghost function Held(page: nat, threads: nat, events: seq<Event>): (held: set<Block>)
  {
    if events == [] then {} else
    var before, e := events[..|events| - 1], events[|events| - 1];
    HeldAfter(page, Exec(page, threads, before), e, Asked(page, threads, before, e.i), Held(page, threads, before))
  }

  ghost function PoolAfter(s: State, e: Event, asked: nat, given: Block, pool: set<Block>): (pool': set<Block>)
  {
    if !Enabled(s, e) then pool
    else if e.Push? then pool + {given}
    else if e.Search? then
      if asked <= e.b.log then pool - {e.b} + Change(e.b.off + Pow2(asked), e.b.log - 1, asked) else pool - {e.b}
    else pool
  }

  /** The blocks on the free lists: given back elsewhere than at the end, or change of a search, and
      not taken by a search since. */
  ghost function Pool(page: nat, threads: nat, events: seq<Event>): (pool: set<Block>)
  {
    if events == [] then {} else
    var before, e := events[..|events| - 1], events[|events| - 1];
    PoolAfter(Exec(page, threads, before), e, Asked(page, threads, before, e.i), GivenBack(page, threads, before, e.i),
              Pool(page, threads, before))
  }

  /** Every block returned lies in the page and apart from all blocks held at that time. */
  ghost predicate Secure(page: nat, threads: nat, events: seq<Event>)
  {
    events == [] ||
    (var before, e := events[..|events| - 1], events[|events| - 1];
     && Secure(page, threads, before)
     && (Returned(page, threads, before, e).Some? ==>
           Welcome(page, Held(page, threads, before), Returned(page, threads, before, e).value)))
  }

  ghost predicate Welcome(page: nat, held: set<Block>, b: Block)
  {
    EndOf(b) <= page && forall c :: c in held ==> Apart(b, c)
  }

  // ----- the machine keeps the books

  ghost predicate CallInv(c: PC, asked: nat, given: Block)
  {
    match c
    case Idle => true
    case Loading(log) => log == asked
    case Bumping(log) => log == asked
    case Searching(log) => log == asked
    case Releasing(b) => b == given
    case Pushing(b) => b == given
  }

  lemma {:induction false} CallsHold(page: nat, threads: nat, events: seq<Event>, i: nat)
    requires i < threads
    ensures var s := Exec(page, threads, events); 
            |s.pc| == threads && CallInv(s.pc[i], Asked(page, threads, events, i), GivenBack(page, threads, events, i))
  {
    if events != [] {
      CallsHold(page, threads, events[..|events| - 1], i);
    }
  }

  /** Held and pool are the live and the free blocks, and every other block is in the hands of the
      thread that is releasing it. */
  ghost predicate Ledger(s: State, held: set<Block>, pool: set<Block>)
  {
    && (forall b :: b in held <==> b in s.owner && s.owner[b] == Live)
    && (forall b :: b in pool <==> b in s.owner && s.owner[b] == Free)
    && (forall b :: b in s.owner && s.owner[b].Hand? ==> InHand(s, b, s.owner[b].thread))
  }

  ghost predicate InHand(s: State, b: Block, i: nat)
  {
    i < |s.pc| && (s.pc[i] == Releasing(b) || s.pc[i] == Pushing(b))
  }

  lemma {:induction false} BumpIsNew(page: nat, s: State, log: nat)
    requires SpaceInv(page, s.nextLoc, s.owner.Keys, s.top) && s.nextLoc <= page
    ensures Block(s.nextLoc, log) !in s.owner
    ensures forall c :: c in s.owner ==> Apart(Block(s.nextLoc, log), c)
  {
  }

  lemma {:induction false} BumpKeepsLedger(page: nat, s: State, i: nat, held: set<Block>, pool: set<Block>)
    requires Inv(page, s) && Roomy(page, |s.pc|) && Ledger(s, held, pool) && Enabled(s, Bump(i))
    ensures var s', log := Apply(page, s, Bump(i)), s.pc[i].log;
            if (s.nextLoc + Pow2(log)) % UINT32 <= page
            then Ledger(s', held + {Block(s.nextLoc, log)}, pool) && Welcome(page, held, Block(s.nextLoc, log))
            else Ledger(s', held, pool)
  {
    var log := s.pc[i].log;
    assert ThreadInv(page, s.owner, s.pc[i], i);
    NoWrap(page, s, log);
    if s.nextLoc + Pow2(log) <= page { BumpIsNew(page, s, log); }
  }

  lemma {:induction false} ChangeBelow(start: nat, i: int, log: nat, c: Block)
    requires i + 1 >= log && c in Change(start, i, log)
    ensures c.log <= i
    decreases i + 1 - log
  {
    if c != Block(start, i) { ChangeBelow(start + Pow2(i), i - 1, log, c); }
  }

  /** The owners after a search, one block at a time. */
  lemma {:induction false} TakenAt(owner: map<Block, Owner>, b: Block, log: nat, change: set<Block>, c: Block)
    requires b in owner && log < b.log && change == Change(b.off + Pow2(log), b.log - 1, log)
    requires Block(b.off, log) !in change
    ensures var r := Taken(owner, b, log);
            if c == Block(b.off, log) then c in r && r[c] == Live
            else if c in change then c in r && r[c] == Free
            else (c in r <==> c in owner && c != b) && (c in r ==> r[c] == owner[c])
  {
  }

  lemma {:induction false} NewInSearch(owner: map<Block, Owner>, top: nat, b: Block, log: nat, change: set<Block>, c: Block)
    requires Tiles(owner.Keys, 0, top) && b in owner && log < b.log && change == Change(b.off + Pow2(log), b.log - 1, log)
    requires c in change || c == Block(b.off, log)
    ensures c !in owner
  {
    if c in change { ChangeBelow(b.off + Pow2(log), b.log - 1, log, c); }
    PiecesApart(owner.Keys, top, b, log);
    assert c in Pieces(b, log) && c != b;
  }

  lemma {:induction false} SplitKeepsLedger(s: State, s': State, b: Block, log: nat, change: set<Block>, held: set<Block>, pool: set<Block>)
    requires Tiles(s.owner.Keys, 0, s.top) && Ledger(s, held, pool) && b in pool && log < b.log
    requires change == Change(b.off + Pow2(log), b.log - 1, log) && s'.owner == Taken(s.owner, b, log)
    requires forall c, i: nat {:trigger InHand(s, c, i)} :: InHand(s, c, i) ==> InHand(s', c, i)
    ensures Ledger(s', held + {Block(b.off, log)}, pool - {b} + change)
  {
    SplitTiles(b, log);
    forall c ensures c in held + {Block(b.off, log)} <==> c in s'.owner && s'.owner[c] == Live {
      TakenAt(s.owner, b, log, change, c);
      if c in change { NewInSearch(s.owner, s.top, b, log, change, c); }
    }
    forall c ensures c in pool - {b} + change <==> c in s'.owner && s'.owner[c] == Free {
      TakenAt(s.owner, b, log, change, c);
      if c == Block(b.off, log) { NewInSearch(s.owner, s.top, b, log, change, c); }
    }
    forall c | c in s'.owner && s'.owner[c].Hand? ensures InHand(s', c, s'.owner[c].thread) {
      TakenAt(s.owner, b, log, change, c);
      assert InHand(s, c, s.owner[c].thread);
    }
  }

  lemma {:induction false} SearchKeepsHands(page: nat, s: State, i: nat, b: Block, c: Block, j: nat)
    requires Enabled(s, Search(i, b)) && InHand(s, c, j)
    ensures InHand(Apply(page, s, Search(i, b)), c, j)
  {
  }

  /** A piece of a free block is apart from all held blocks. */
  lemma {:induction false} PieceIsWelcome(page: nat, s: State, b: Block, log: nat, held: set<Block>, pool: set<Block>)
    requires SpaceInv(page, s.nextLoc, s.owner.Keys, s.top) && Ledger(s, held, pool) && b in pool && log <= b.log
    ensures Welcome(page, held, Block(b.off, log))
  {
    Pow2Monotone(log, b.log);
    forall c | c in held ensures Apart(Block(b.off, log), c) { assert Apart(b, c); }
  }

  /** What a search does to owners and hands. */
  lemma {:induction false} SearchEffects(page: nat, s: State, i: nat, b: Block, held: set<Block>, pool: set<Block>)
    requires Enabled(s, Search(i, b)) && Ledger(s, held, pool)
    ensures b in pool && Apply(page, s, Search(i, b)).owner == Taken(s.owner, b, s.pc[i].log)
    ensures forall c, j: nat {:trigger InHand(s, c, j)} :: InHand(s, c, j) ==> InHand(Apply(page, s, Search(i, b)), c, j)
  {
    forall c, j: nat | InHand(s, c, j) ensures InHand(Apply(page, s, Search(i, b)), c, j) {
      SearchKeepsHands(page, s, i, b, c, j);
    }
  }

  lemma {:induction false} ChangeOfExact(b: Block)
    ensures Block(b.off, b.log) == b && Change(b.off + Pow2(b.log), b.log - 1, b.log) == {}
  {
  }

  lemma {:induction false} ExactKeepsLedger(s: State, s': State, b: Block, held: set<Block>, pool: set<Block>)
    requires Ledger(s, held, pool) && b in pool && s'.owner == s.owner[b := Live]
    requires forall c, i: nat {:trigger InHand(s, c, i)} :: InHand(s, c, i) ==> InHand(s', c, i)
    ensures Ledger(s', held + {b}, pool - {b} + {})
  {
  }

  lemma {:induction false} FreeKeepsLedger(page: nat, s: State, i: nat, b: Block, held: set<Block>, pool: set<Block>)
    requires Ledger(s, held, pool) && Enabled(s, StartFree(i, b))
    ensures Ledger(Apply(page, s, StartFree(i, b)), held - {b}, pool)
  {
    var s' := Apply(page, s, StartFree(i, b));
    forall c | c in s'.owner && s'.owner[c].Hand? ensures InHand(s', c, s'.owner[c].thread) {
      if c != b { assert InHand(s, c, s.owner[c].thread); }
    }
  }

  lemma {:induction false} CasKeepsLedger(page: nat, s: State, i: nat, held: set<Block>, pool: set<Block>)
    requires Ledger(s, held, pool) && Enabled(s, Cas(i)) && ThreadInv(page, s.owner, s.pc[i], i)
    ensures Ledger(Apply(page, s, Cas(i)), held, pool)
  {
    var s' := Apply(page, s, Cas(i));
    forall c | c in s'.owner && s'.owner[c].Hand? ensures InHand(s', c, s'.owner[c].thread) {
      assert InHand(s, c, s.owner[c].thread);
    }
  }

  lemma {:induction false} PushKeepsLedger(page: nat, s: State, i: nat, held: set<Block>, pool: set<Block>)
    requires Ledger(s, held, pool) && Enabled(s, Push(i)) && ThreadInv(page, s.owner, s.pc[i], i)
    ensures Ledger(Apply(page, s, Push(i)), held, pool + {s.pc[i].b})
  {
    var s' := Apply(page, s, Push(i));
    forall c | c in s'.owner && s'.owner[c].Hand? ensures InHand(s', c, s'.owner[c].thread) {
      assert InHand(s, c, s.owner[c].thread);
    }
  }

  lemma {:induction false} OthersKeepLedger(page: nat, s: State, e: Event, held: set<Block>, pool: set<Block>)
    requires Ledger(s, held, pool) && Enabled(s, e) && (e.StartAlloc? || e.Load? || e.Fail?)
    ensures Ledger(Apply(page, s, e), held, pool)
  {
    var s' := Apply(page, s, e);
    forall c | c in s'.owner && s'.owner[c].Hand? ensures InHand(s', c, s'.owner[c].thread) {
      assert InHand(s, c, s.owner[c].thread);
    }
  }

  /** The books and the machine agree on an event, and what it returns is welcome. */
  ghost predicate Booked(page: nat, s: State, e: Event, asked: nat, given: Block, held: set<Block>, pool: set<Block>)
    requires Enabled(s, e)
  {
    && Ledger(Apply(page, s, e), HeldAfter(page, s, e, asked, held), PoolAfter(s, e, asked, given, pool))
    && (ReturnedBy(page, s, e, asked).Some? ==> Welcome(page, held, ReturnedBy(page, s, e, asked).value))
  }

  lemma {:induction false} PlainIsBooked(page: nat, s: State, e: Event, asked: nat, given: Block,
                                         held: set<Block>, pool: set<Block>)
    requires Enabled(s, e) && Ledger(s, held, pool) && CallInv(s.pc[e.i], asked, given) && !e.Bump? && !e.Search?
    requires ThreadInv(page, s.owner, s.pc[e.i], e.i)
    ensures Booked(page, s, e, asked, given, held, pool)
  {
    match e {
      case StartFree(i, b) => FreeKeepsLedger(page, s, i, b, held, pool);
      case Cas(i) => CasKeepsLedger(page, s, i, held, pool);
      case Push(i) => PushKeepsLedger(page, s, i, held, pool);
      case _ => OthersKeepLedger(page, s, e, held, pool);
    }
  }

  lemma {:induction false} BumpIsBooked(page: nat, s: State, i: nat, asked: nat, given: Block, held: set<Block>, pool: set<Block>)
    requires Inv(page, s) && Roomy(page, |s.pc|) && Enabled(s, Bump(i)) && Ledger(s, held, pool) && s.pc[i].log == asked
    ensures Booked(page, s, Bump(i), asked, given, held, pool)
  {
    BumpKeepsLedger(page, s, i, held, pool);
  }

  lemma {:induction false} TakenKeepsLedger(s: State, s': State, b: Block, log: nat, held: set<Block>, pool: set<Block>)
    requires Tiles(s.owner.Keys, 0, s.top) && Ledger(s, held, pool) && b in pool && log <= b.log
    requires s'.owner == Taken(s.owner, b, log)
    requires forall c, i: nat {:trigger InHand(s, c, i)} :: InHand(s, c, i) ==> InHand(s', c, i)
    ensures Ledger(s', held + {Block(b.off, log)}, pool - {b} + Change(b.off + Pow2(log), b.log - 1, log))
  {
    if log < b.log {
      SplitKeepsLedger(s, s', b, log, Change(b.off + Pow2(log), b.log - 1, log), held, pool);
    } else {
      ChangeOfExact(b);
      ExactKeepsLedger(s, s', b, held, pool);
    }
  }

  lemma {:induction false} SearchKeepsLedger(page: nat, s: State, i: nat, b: Block, log: nat, held: set<Block>, pool: set<Block>)
    requires Tiles(s.owner.Keys, 0, s.top) && Ledger(s, held, pool) && Enabled(s, Search(i, b)) && s.pc[i].log == log
    ensures Ledger(Apply(page, s, Search(i, b)), held + {Block(b.off, log)}, pool - {b} + Change(b.off + Pow2(log), b.log - 1, log))
  {
    SearchEffects(page, s, i, b, held, pool);
    TakenKeepsLedger(s, Apply(page, s, Search(i, b)), b, log, held, pool);
  }

  lemma {:induction false} SearchIsBooked(page: nat, s: State, i: nat, b: Block, asked: nat, given: Block,
                                          held: set<Block>, pool: set<Block>)
    requires Enabled(s, Search(i, b)) && asked <= b.log && Welcome(page, held, Block(b.off, asked))
    requires Ledger(Apply(page, s, Search(i, b)), held + {Block(b.off, asked)},
                    pool - {b} + Change(b.off + Pow2(asked), b.log - 1, asked))
    ensures Booked(page, s, Search(i, b), asked, given, held, pool)
  {
    SearchBooks(page, s, i, b, asked, given, held, pool);
  }

  lemma {:induction false} SearchBooks(page: nat, s: State, i: nat, b: Block, asked: nat, given: Block,
                                       held: set<Block>, pool: set<Block>)
    requires Enabled(s, Search(i, b)) && asked <= b.log
    ensures HeldAfter(page, s, Search(i, b), asked, held) == held + {Block(b.off, asked)}
    ensures PoolAfter(s, Search(i, b), asked, given, pool) == pool - {b} + Change(b.off + Pow2(asked), b.log - 1, asked)
    ensures ReturnedBy(page, s, Search(i, b), asked) == Some(Block(b.off, asked))
  {
  }

  lemma {:induction false} EventIsBooked(page: nat, s: State, e: Event, asked: nat, given: Block,
                                         held: set<Block>, pool: set<Block>)
    requires Inv(page, s) && Roomy(page, |s.pc|) && Enabled(s, e) && Ledger(s, held, pool) && CallInv(s.pc[e.i], asked, given)
    ensures Booked(page, s, e, asked, given, held, pool)
  {
    match e
    case Bump(i) => BumpIsBooked(page, s, i, asked, given, held, pool);
    case Search(i, b) =>
      PieceIsWelcome(page, s, b, asked, held, pool);
      SearchKeepsLedger(page, s, i, b, asked, held, pool);
      SearchIsBooked(page, s, i, b, asked, given, held, pool);
    case _ =>
      assert ThreadInv(page, s.owner, s.pc[e.i], e.i);
      PlainIsBooked(page, s, e, asked, given, held, pool);
  }

  lemma {:induction false} LedgerHolds(page: nat, threads: nat, events: seq<Event>)
    requires Roomy(page, threads)
    ensures Ledger(Exec(page, threads, events), Held(page, threads, events), Pool(page, threads, events))
    ensures Secure(page, threads, events)
  {
    if events != [] {
      var before, e := events[..|events| - 1], events[|events| - 1];
      LedgerHolds(page, threads, before);
      InvHolds(page, threads, before);
      var s := Exec(page, threads, before);
      if Enabled(s, e) {
        CallsHold(page, threads, before, e.i);
        EventIsBooked(page, s, e, Asked(page, threads, before, e.i), GivenBack(page, threads, before, e.i),
                      Held(page, threads, before), Pool(page, threads, before));
      }
    }
  }

  // ----- what this means for the callers

  /** In every interleaving: every block returned lies in the page and apart from all blocks held at
      that time; the blocks held are pairwise apart, aligned and inside the page; a block on the
      free lists overlaps none of them; and no byte is lost: when all threads are idle, held and
      free blocks tile everything up to the end of what was handed out, which is nextLoc unless that
      has overshot the page. */
  lemma {:induction false} BlocksPartition(page: nat, threads: nat, events: seq<Event>)
    requires Roomy(page, threads)
    ensures Secure(page, threads, events)
    ensures var held, pool := Held(page, threads, events), Pool(page, threads, events);
            && held !! pool && (forall b :: b in held + pool ==> EndOf(b) <= page && b.off % 128 == 0)
            && (forall a, b {:trigger Apart(a, b)} :: a in held + pool && b in held + pool && a != b ==> Apart(a, b))
    ensures var s := Exec(page, threads, events);
            && (s.nextLoc <= page ==> s.top == s.nextLoc)
            && ((forall i :: 0 <= i < |s.pc| ==> s.pc[i].Idle?) ==>
                  Tiles(Held(page, threads, events) + Pool(page, threads, events), 0, s.top))
  {
    var s, held, pool := Exec(page, threads, events), Held(page, threads, events), Pool(page, threads, events);
    InvHolds(page, threads, events);
    LedgerHolds(page, threads, events);
    assert held + pool <= s.owner.Keys;
    forall b | b in held + pool ensures EndOf(b) <= page && b.off % 128 == 0 { assert Classed(b); }
    if forall i :: 0 <= i < |s.pc| ==> s.pc[i].Idle? { NoneInHand(s, held, pool); }
  }

  lemma {:induction false} NoneInHand(s: State, held: set<Block>, pool: set<Block>)
    requires Ledger(s, held, pool) && forall i :: 0 <= i < |s.pc| ==> s.pc[i].Idle?
    ensures held + pool == s.owner.Keys
  {
    forall b | b in s.owner ensures b in held + pool {
      if s.owner[b].Hand? { assert InHand(s, b, s.owner[b].thread); }
    }
  }

  /** A caller can give back exactly what it holds, and a search finds a free block exactly when one
      is large enough: then any of the smallest class that fits, however it came to the free lists;
      it fails otherwise. */
  lemma {:induction false} SearchFindsFree(page: nat, threads: nat, events: seq<Event>, i: nat, b: Block)
    requires Roomy(page, threads) && i < threads
    ensures var s, asked := Exec(page, threads, events), Asked(page, threads, events, i);
            var held, pool := Held(page, threads, events), Pool(page, threads, events);
            && |s.pc| == threads
            && (s.pc[i].Idle? ==> (Enabled(s, StartFree(i, b)) <==> b in held))
            && (s.pc[i].Searching? ==>
                  && (Enabled(s, Search(i, b)) <==>
                        b in pool && b.log >= asked && forall c :: c in pool && c.log >= asked ==> b.log <= c.log)
                  && (Enabled(s, Fail(i)) <==> forall c :: c in pool ==> c.log < asked))
  {
    LedgerHolds(page, threads, events);
    CallsHold(page, threads, events, i);
  }

  /** The block that deallocOffset pushes is on the free lists from then on, until a search takes it. */
  lemma {:induction false} PushedIsFree(page: nat, threads: nat, events: seq<Event>, i: nat, b: Block)
    requires Roomy(page, threads) && Enabled(Exec(page, threads, events), Push(i))
    ensures GivenBack(page, threads, events, i) in Pool(page, threads, events + [Push(i)])
    ensures forall e :: b in Pool(page, threads, events) && b !in Pool(page, threads, events + [e]) ==> e.Search? && e.b == b
  {
    assert (events + [Push(i)])[..|events|] == events;
    forall e | b in Pool(page, threads, events) && b !in Pool(page, threads, events + [e]) ensures e.Search? && e.b == b {
      assert (events + [e])[..|events|] == events;
    }
  }

  // ----- calls come to an end

  ghost function StepsLeft(c: PC): (n: nat)
  {
    match c
    case Idle => 0 case Loading(_) => 3 case Bumping(_) => 2 case Searching(_) => 1 case Releasing(_) => 2 case Pushing(_) => 1
  }

  lemma {:induction false} LeastFit(free: set<Block>, log: nat) returns (b: Block)
    requires exists c :: c in free && c.log >= log
    ensures b in free && b.log >= log && forall c :: c in free && c.log >= log ==> b.log <= c.log
    decreases free
  {
    b :| b in free && b.log >= log;
    if exists c :: c in free - {b} && c.log >= log {
      var d := LeastFit(free - {b}, log);
      if d.log < b.log { b := d; }
    }
  }

  /** A thread inside a call can always take its next step, whatever the others do, and each step
      brings the call nearer to its end. */
  lemma {:induction false} CallsGoOn(page: nat, threads: nat, events: seq<Event>, i: nat) returns (e: Event)
    requires i < |Exec(page, threads, events).pc| && !Exec(page, threads, events).pc[i].Idle?
    ensures var s := Exec(page, threads, events);
            && e.i == i && Enabled(s, e)
            && StepsLeft(Apply(page, s, e).pc[i]) < StepsLeft(s.pc[i])
  {
    var s := Exec(page, threads, events);
    match s.pc[i] {
      case Loading(_) => e := Load(i);
      case Bumping(_) => e := Bump(i);
      case Releasing(_) => e := Cas(i);
      case Pushing(_) => e := Push(i);
      case Searching(log) =>
        var free := set b | b in s.owner && s.owner[b] == Free;
        if exists c :: c in free && c.log >= log {
          var b := LeastFit(free, log);
          e := Search(i, b);
        } else {
          e := Fail(i);
        }
    }
  }

  // ----- when nextLoc wraps

  /** With too many threads the 32-bit nextLoc wraps and a block outside the page is returned. */
  lemma {:induction false} OvershootReturns(k: nat, threads: nat) returns (events: seq<Event>)
    requires MIN_SIZE <= k < MAX_SIZE && !Roomy(Pow2(k), threads)
    ensures !Secure(Pow2(k), threads, events)
  {
    var page := Pow2(k);
    var pushed := OvershootWraps(k, threads);
    events := pushed + [StartAlloc(0, 29), Load(0)] + [Bump(0)];
    WrapOnce(page, threads, pushed);
    var before := pushed + [StartAlloc(0, 29), Load(0)];
    assert events[..|before|] == before;
    AskedTwo(page, threads, pushed);
  }

  lemma {:induction false} AskedTwo(page: nat, threads: nat, es: seq<Event>)
    requires var s := Exec(page, threads, es); |s.pc| > 0 && s.pc[0] == Idle
    ensures Asked(page, threads, es + [StartAlloc(0, 29), Load(0)], 0) == 29
  {
    var one := es + [StartAlloc(0, 29)];
    assert (es + [StartAlloc(0, 29), Load(0)])[..|one|] == one && one[..|es|] == es;
  }

  /** For a page of a power of two, every block returned in every interleaving lies in the page and
      apart from all blocks held, if and only if all threads together cannot push nextLoc within the
      largest block of 32 bits. */
  lemma {:induction false} SafeIffRoomy(k: nat, threads: nat)
    requires MIN_SIZE <= k < MAX_SIZE
    ensures (forall events :: Secure(Pow2(k), threads, events)) <==> Roomy(Pow2(k), threads)
  {
    if Roomy(Pow2(k), threads) {
      forall events ensures Secure(Pow2(k), threads, events) { LedgerHolds(Pow2(k), threads, events); }
    } else {
      var events := OvershootReturns(k, threads);
    }
  }
}
