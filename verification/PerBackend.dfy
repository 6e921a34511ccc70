/** The offset allocator behind per-thread storage: a bump pointer shared by all threads, with
    power-of-two free lists under a lock for what is released elsewhere than at the end. */
module PerBackend {
  import opened Arith
  import opened Wrappers

  const MIN_SIZE: nat := 7
  const MAX_SIZE: nat := 30

  /** The least exponent of at least MIN_SIZE whose power covers the size. */
  ghost predicate ClassOf(size: nat, log: nat)
  {
    && MIN_SIZE <= log < MAX_SIZE && size <= Pow2(log)
    && (log > MIN_SIZE ==> Pow2(log - 1) < size)
  }

  lemma {:induction false} ClassUnique(size: nat, a: nat, b: nat)
    requires ClassOf(size, a) && ClassOf(size, b)
    ensures a == b
  {
    if a < b { Pow2Monotone(a, b - 1); } else if b < a { Pow2Monotone(b, a - 1); }
  }

  /** The least exponent of at least MIN_SIZE whose power covers the size; None is the abort. */
  method NextLog2(size: nat) returns (r: Option<nat>)
    ensures r.Some? <==> size <= Pow2(MAX_SIZE - 1)
    ensures r.Some? ==> ClassOf(size, r.value)
  {
    var i := MIN_SIZE;
    while Pow2(i) < size
      invariant MIN_SIZE <= i
      invariant i > MIN_SIZE ==> Pow2(i - 1) < size
      decreases size - Pow2(i)
    {
      i := i + 1;
    }
    if i >= MAX_SIZE {
      Pow2Monotone(MAX_SIZE - 1, i - 1);
      return None;
    }
    Pow2Monotone(i, MAX_SIZE - 1);
    r := Some(i);
  }

  // ----- blocks and tilings

  datatype Block = Block(off: nat, log: nat)

  function EndOf(b: Block): (e: nat)
    ensures e > b.off
  {
    b.off + Pow2(b.log)
  }

  ghost predicate Holds(b: Block, x: int) { b.off <= x < EndOf(b) }

  ghost predicate Apart(a: Block, b: Block) { EndOf(a) <= b.off || EndOf(b) <= a.off }

  ghost predicate Covered(s: set<Block>, x: int) { exists b :: b in s && Holds(b, x) }

  /** The blocks lie in [lo, hi), do not overlap and leave no byte out: an exact partition. */
  ghost predicate Tiles(s: set<Block>, lo: nat, hi: nat)
  {
    && (forall b :: b in s ==> lo <= b.off && EndOf(b) <= hi)
    && (forall a, b {:trigger Apart(a, b)} :: a in s && b in s && a != b ==> Apart(a, b))
    && (forall x :: lo <= x < hi ==> Covered(s, x))
  }

  lemma {:induction false} TileOne(b: Block)
    ensures Tiles({b}, b.off, EndOf(b))
  {
    forall x | b.off <= x < EndOf(b) ensures Covered({b}, x) { assert Holds(b, x); }
  }

  lemma {:induction false} TilesJoin(s: set<Block>, t: set<Block>, lo: nat, mid: nat, hi: nat)
    requires Tiles(s, lo, mid) && Tiles(t, mid, hi) && lo <= mid <= hi
    ensures Tiles(s + t, lo, hi) && s !! t
  {
    forall x | lo <= x < hi ensures Covered(s + t, x) {
      if x < mid { assert Covered(s, x); var b :| b in s && Holds(b, x); assert b in s + t; }
      else { assert Covered(t, x); var b :| b in t && Holds(b, x); assert b in s + t; }
    }
  }

  /** Cutting a block into pieces that tile it keeps a tiling. */
  lemma {:induction false} TilesSplit(s: set<Block>, lo: nat, hi: nat, b: Block, t: set<Block>)
    requires Tiles(s, lo, hi) && b in s && Tiles(t, b.off, EndOf(b))
    ensures Tiles(s - {b} + t, lo, hi) && (s - {b}) !! t
  {
    forall x | lo <= x < hi ensures Covered(s - {b} + t, x) {
      assert Covered(s, x);
      var c :| c in s && Holds(c, x);
      if c == b {
        assert Covered(t, x);
        var d :| d in t && Holds(d, x);
        assert d in s - {b} + t;
      } else {
        assert c in s - {b} + t;
      }
    }
    forall a, c | a in s - {b} && c in t ensures Apart(a, c) { assert Apart(a, b); }
  }

  /** Giving back the last block shortens a tiling. */
  lemma {:induction false} TilesDropLast(s: set<Block>, lo: nat, hi: nat, b: Block)
    requires Tiles(s, lo, hi) && b in s && EndOf(b) == hi
    ensures Tiles(s - {b}, lo, b.off)
  {
    forall c | c in s - {b} ensures lo <= c.off && EndOf(c) <= b.off { assert Apart(c, b); }
    forall x | lo <= x < b.off ensures Covered(s - {b}, x) {
      assert Covered(s, x);
      var c :| c in s && Holds(c, x);
      assert c != b;
    }
  }

  // ----- the vending-machine change

  /** The blocks the change loop pushes: one of each exponent from i down to log. */
  ghost function Change(start: nat, i: int, log: nat): (s: set<Block>)
    requires i + 1 >= log
    decreases i + 1 - log
  {
    if i < log then {} else {Block(start, i)} + Change(start + Pow2(i), i - 1, log)
  }

  /** The change tiles what is left of the split block, to the byte. */
  lemma {:induction false} ChangeTiles(start: nat, i: int, log: nat)
    requires i + 1 >= log
    ensures Pow2(log) <= Pow2(i + 1)
    ensures Tiles(Change(start, i, log), start, start + (Pow2(i + 1) - Pow2(log)))
    decreases i + 1 - log
  {
    if i >= log {
      ChangeTiles(start + Pow2(i), i - 1, log);
      TileOne(Block(start, i));
      Pow2Monotone(log, i);
      TilesJoin({Block(start, i)}, Change(start + Pow2(i), i - 1, log),
                start, start + Pow2(i), start + (Pow2(i + 1) - Pow2(log)));
    }
  }

  /** A block of exponent log in front and the change behind it tile the whole block. */
  lemma {:induction false} SplitTiles(b: Block, log: nat)
    requires log < b.log
    ensures Tiles(Pieces(b, log), b.off, EndOf(b))
    ensures Block(b.off, log) !in Change(b.off + Pow2(log), b.log - 1, log)
  {
    ChangeTiles(b.off + Pow2(log), b.log - 1, log);
    JoinPieces(b, log, Change(b.off + Pow2(log), b.log - 1, log));
  }

  lemma {:induction false} JoinPieces(b: Block, log: nat, change: set<Block>)
    requires Pow2(log) <= Pow2(b.log)
    requires Tiles(change, b.off + Pow2(log), b.off + Pow2(log) + (Pow2(b.log) - Pow2(log)))
    ensures Tiles({Block(b.off, log)} + change, b.off, EndOf(b)) && Block(b.off, log) !in change
  {
    TileOne(Block(b.off, log));
    TilesJoin({Block(b.off, log)}, change, b.off, b.off + Pow2(log), EndOf(b));
  }

  lemma {:induction false} ChangeLogs(start: nat, i: int, log: nat, b: Block)
    requires i + 1 >= log && b in Change(start, i, log) && start % 128 == 0 && log >= MIN_SIZE
    ensures log <= b.log <= i && b.off % 128 == 0
    decreases i + 1 - log
  {
    if b != Block(start, i) {
      AlignedAdd(start, i);
      ChangeLogs(start + Pow2(i), i - 1, log, b);
    }
  }

  lemma {:induction false} AlignedAdd(start: nat, i: nat)
    requires i >= MIN_SIZE && start % 128 == 0
    ensures (start + Pow2(i)) % 128 == 0
  {
    Aligned(i);
  }

  lemma {:induction false} Aligned(i: nat)
    requires i >= MIN_SIZE
    ensures Pow2(i) % 128 == 0
  {
    if i > MIN_SIZE {
      Aligned(i - 1);
      ModUnique(Pow2(i), 128, 2 * (Pow2(i - 1) / 128), 0);
    } else {
      assert Pow2(1) == 2;
      assert Pow2(3) == 8;
      assert Pow2(5) == 32;
    }
  }

  // ----- all interleavings

  /** Where a thread is in allocOffset or deallocOffset: about to load nextLoc, about to
      fetch_add, about to search the free lists under the lock, about to compare-and-swap nextLoc,
      about to push onto a free list under the lock. */
  datatype PC =
    | Idle
    | Loading(log: nat)
    | Bumping(log: nat)
    | Searching(log: nat)
    | Releasing(b: Block)
    | Pushing(b: Block)

  datatype Owner = Live | Free | Hand(thread: nat)

  /** nextLoc is a 32-bit word. owner says for each existing block who has it: the free lists are
      the blocks owned by Free. top is history: the end of the page part handed out so far. */
  datatype State = State(nextLoc: nat, owner: map<Block, Owner>, pc: seq<PC>, top: nat)

  datatype Event =
    | StartAlloc(i: nat, log: nat)   // allocOffset called, nextLog2 done
    | Load(i: nat)                   // the relaxed load and its test
    | Bump(i: nat)                   // fetch_add and its test
    | Search(i: nat, b: Block)       // under the lock, b is the free block taken
    | Fail(i: nat)                   // no free block is large enough: out of memory
    | StartFree(i: nat, b: Block)    // deallocOffset called by the owner of b
    | Cas(i: nat)                    // compare_exchange_strong
    | Push(i: nat)                   // push_back under the lock

  predicate Fits(b: Block, log: nat) { b.log >= log }

  ghost predicate Enabled(s: State, e: Event)
  {
    match e
    case StartAlloc(i, log) => i < |s.pc| && s.pc[i].Idle? && MIN_SIZE <= log < MAX_SIZE
    case Load(i) => i < |s.pc| && s.pc[i].Loading?
    case Bump(i) => i < |s.pc| && s.pc[i].Bumping?
    case Search(i, b) =>
      && i < |s.pc| && s.pc[i].Searching? && b in s.owner && s.owner[b] == Free && Fits(b, s.pc[i].log)
      && (forall c :: c in s.owner && s.owner[c] == Free && Fits(c, s.pc[i].log) ==> b.log <= c.log)
    case Fail(i) =>
      && i < |s.pc| && s.pc[i].Searching?
      && (forall c :: c in s.owner && s.owner[c] == Free ==> !Fits(c, s.pc[i].log))
    case StartFree(i, b) => i < |s.pc| && s.pc[i].Idle? && b in s.owner && s.owner[b] == Live
    case Cas(i) => i < |s.pc| && s.pc[i].Releasing?
    case Push(i) => i < |s.pc| && s.pc[i].Pushing?
  }

  /** The owners after a search: the block taken is replaced by its first piece and the change. */
  ghost function Taken(owner: map<Block, Owner>, b: Block, log: nat): (r: map<Block, Owner>)
    requires b in owner && log <= b.log
  {
    if b.log == log then owner[b := Live] else
    var change := Change(b.off + Pow2(log), b.log - 1, log);
    owner - {b} + (map c | c in change :: Free) + map[Block(b.off, log) := Live]
  }

  ghost function Apply(page: nat, s: State, e: Event): (s': State)
    requires Enabled(s, e)
  {
    match e
    case StartAlloc(i, log) => s.(pc := s.pc[i := Loading(log)])
    case Load(i) =>
      var log := s.pc[i].log;
      s.(pc := s.pc[i := if (s.nextLoc + Pow2(log)) % UINT32 <= page then Bumping(log) else Searching(log)])
    case Bump(i) =>
      var log, off := s.pc[i].log, s.nextLoc;
      var end := (off + Pow2(log)) % UINT32;
      if end <= page
      then s.(nextLoc := end, pc := s.pc[i := Idle], owner := s.owner[Block(off, log) := Live], top := end)
      else s.(nextLoc := end, pc := s.pc[i := Searching(log)])
    case Search(i, b) => s.(owner := Taken(s.owner, b, s.pc[i].log), pc := s.pc[i := Idle])
    case Fail(i) => s.(pc := s.pc[i := Idle])
    case StartFree(i, b) => s.(owner := s.owner[b := Hand(i)], pc := s.pc[i := Releasing(b)])
    case Cas(i) =>
      var b := s.pc[i].b;
      if s.nextLoc == (b.off + Pow2(b.log)) % UINT32
      then s.(nextLoc := b.off, owner := s.owner - {b}, pc := s.pc[i := Idle], top := b.off)
      else s.(pc := s.pc[i := Pushing(b)])
    case Push(i) => s.(owner := s.owner[s.pc[i].b := Free], pc := s.pc[i := Idle])
  }

  ghost function Exec(page: nat, threads: nat, events: seq<Event>): (s: State)
  {
    if events == [] then State(0, map[], seq(threads, _ => Idle), 0) else
    var s, e := Exec(page, threads, events[..|events| - 1]), events[|events| - 1];
    if Enabled(s, e) then Apply(page, s, e) else s
  }

  /** The bytes a thread past the load is about to add to nextLoc. */
  ghost function Claim(c: PC): (n: nat)
  {
    if c.Bumping? then Pow2(c.log) else 0
  }

  ghost function Promised(pc: seq<PC>): (n: nat)
  {
    if pc == [] then 0 else Claim(pc[0]) + Promised(pc[1..])
  }

  ghost predicate ThreadInv(page: nat, owner: map<Block, Owner>, c: PC, i: nat)
  {
    match c
    case Bumping(log) => MIN_SIZE <= log < MAX_SIZE && Pow2(log) <= page
    case Loading(log) => MIN_SIZE <= log < MAX_SIZE
    case Searching(log) => MIN_SIZE <= log < MAX_SIZE
    case Releasing(b) => b in owner && owner[b] == Hand(i)
    case Pushing(b) => b in owner && owner[b] == Hand(i)
    case Idle => true
  }

  ghost predicate ThreadsInv(page: nat, s: State)
  {
    forall i: nat :: i < |s.pc| ==> ThreadInv(page, s.owner, s.pc[i], i)
  }

  ghost predicate Classed(b: Block)
  {
    MIN_SIZE <= b.log < MAX_SIZE && b.off % 128 == 0
  }

  ghost predicate SpaceInv(page: nat, nextLoc: nat, blocks: set<Block>, top: nat)
  {
    && Tiles(blocks, 0, top) && top <= page && top % 128 == 0
    && (nextLoc <= page ==> top == nextLoc)
    && (forall b :: b in blocks ==> Classed(b))
  }

  /** nextLoc overshoots by what the threads past the load promised, and no more. */
  ghost predicate RoomInv(page: nat, s: State)
  {
    s.nextLoc + Promised(s.pc) <= Mul(|s.pc|, page)
  }

  ghost predicate Inv(page: nat, s: State)
  {
    SpaceInv(page, s.nextLoc, s.owner.Keys, s.top) && RoomInv(page, s) && ThreadsInv(page, s)
  }

  // ----- what threads promise

  lemma {:induction false} PromisedUpdate(pc: seq<PC>, i: nat, c: PC)
    requires i < |pc|
    ensures Promised(pc[i := c]) == Promised(pc) - Claim(pc[i]) + Claim(c)
  {
    if i == 0 {
      assert pc[i := c][1..] == pc[1..];
    } else {
      assert pc[i := c][1..] == pc[1..][i - 1 := c];
      PromisedUpdate(pc[1..], i - 1, c);
    }
  }

  lemma {:induction false} PromisedBound(pc: seq<PC>, i: nat, page: nat)
    requires i < |pc| && !pc[i].Bumping?
    requires forall j :: 0 <= j < |pc| ==> Claim(pc[j]) <= page
    ensures Promised(pc) <= Mul(|pc| - 1, page)
  {
    if i == 0 {
      AllPromised(pc[1..], page);
    } else {
      PromisedBound(pc[1..], i - 1, page);
    }
  }

  lemma {:induction false} AllPromised(pc: seq<PC>, page: nat)
    requires forall j :: 0 <= j < |pc| ==> Claim(pc[j]) <= page
    ensures Promised(pc) <= Mul(|pc|, page)
  {
    if pc != [] { AllPromised(pc[1..], page); }
  }

  /** No sum on nextLoc leaves 32 bits. */
  ghost predicate Roomy(page: nat, threads: nat)
  {
    Mul(threads, page) + Pow2(MAX_SIZE - 1) < UINT32
  }

  lemma {:induction false} NoWrap(page: nat, s: State, log: nat)
    requires RoomInv(page, s) && Roomy(page, |s.pc|) && log < MAX_SIZE
    ensures (s.nextLoc + Pow2(log)) % UINT32 == s.nextLoc + Pow2(log)
  {
    Pow2Monotone(log, MAX_SIZE - 1);
  }

  // ----- every step keeps the invariant

  lemma {:induction false} TakenKeys(owner: map<Block, Owner>, b: Block, log: nat)
    requires b in owner && log < b.log
    ensures Taken(owner, b, log).Keys
         == owner.Keys - {b} + Pieces(b, log)
  {
  }

  ghost function Pieces(b: Block, log: nat): (s: set<Block>)
    requires log < b.log
  {
    {Block(b.off, log)} + Change(b.off + Pow2(log), b.log - 1, log)
  }

  lemma {:induction false} PiecesClassed(b: Block, log: nat, c: Block)
    requires Classed(b) && MIN_SIZE <= log < b.log && c in Pieces(b, log)
    ensures Classed(c)
  {
    AlignedAdd(b.off, log);
    if c != Block(b.off, log) { ChangeLogs(b.off + Pow2(log), b.log - 1, log, c); }
  }

  lemma {:induction false} SplitKeepsSpace(page: nat, nextLoc: nat, blocks: set<Block>, top: nat, b: Block, pieces: set<Block>)
    requires SpaceInv(page, nextLoc, blocks, top) && b in blocks
    requires Tiles(pieces, b.off, EndOf(b)) && (forall c :: c in pieces ==> Classed(c))
    ensures SpaceInv(page, nextLoc, blocks - {b} + pieces, top)
  {
    TilesSplit(blocks, 0, top, b, pieces);
  }

  lemma {:induction false} SearchKeepsSpace(page: nat, nextLoc: nat, owner: map<Block, Owner>, top: nat, b: Block, log: nat)
    requires SpaceInv(page, nextLoc, owner.Keys, top) && b in owner && MIN_SIZE <= log <= b.log
    ensures SpaceInv(page, nextLoc, Taken(owner, b, log).Keys, top)
  {
    if log == b.log {
      assert Taken(owner, b, log).Keys == owner.Keys;
    } else {
      TakenKeys(owner, b, log);
      SplitTiles(b, log);
      forall c | c in Pieces(b, log) ensures Classed(c) { PiecesClassed(b, log, c); }
      SplitKeepsSpace(page, nextLoc, owner.Keys, top, b, Pieces(b, log));
    }
  }

  lemma {:induction false} PiecesApart(blocks: set<Block>, top: nat, b: Block, log: nat)
    requires Tiles(blocks, 0, top) && b in blocks && log < b.log
    ensures (blocks - {b}) !! Pieces(b, log)
  {
    SplitTiles(b, log);
    TilesSplit(blocks, 0, top, b, Pieces(b, log));
  }

  /** A search touches no block but the one it takes. */
  lemma {:induction false} SearchKeepsOwner(owner: map<Block, Owner>, top: nat, b: Block, log: nat, c: Block)
    requires Tiles(owner.Keys, 0, top) && b in owner && log <= b.log && c in owner && c != b
    ensures c in Taken(owner, b, log) && Taken(owner, b, log)[c] == owner[c]
  {
    if log < b.log {
      PiecesApart(owner.Keys, top, b, log);
      assert c in owner.Keys - {b};
      assert c !in Pieces(b, log);
    }
  }

  lemma {:induction false} StepKeepsSpace(page: nat, s: State, e: Event)
    requires Inv(page, s) && Roomy(page, |s.pc|) && Enabled(s, e)
    ensures var s' := Apply(page, s, e); SpaceInv(page, s'.nextLoc, s'.owner.Keys, s'.top)
  {
    var s' := Apply(page, s, e);
    match e {
      case Bump(i) => BumpKeepsSpace(page, s, i);
      case Cas(i) => CasKeepsSpace(page, s, i);
      case Search(i, b) => 
        assert ThreadInv(page, s.owner, s.pc[i], i);
        SearchKeepsSpace(page, s.nextLoc, s.owner, s.top, b, s.pc[i].log);
      case Push(i) =>
        assert ThreadInv(page, s.owner, s.pc[i], i);
        assert s'.owner.Keys == s.owner.Keys;
      case StartFree(i, b) => assert s'.owner.Keys == s.owner.Keys;
      case _ =>
    }
  }

  lemma {:induction false} AppendKeepsSpace(page: nat, blocks: set<Block>, top: nat, log: nat)
    requires SpaceInv(page, top, blocks, top) && top + Pow2(log) <= page && MIN_SIZE <= log < MAX_SIZE
    ensures SpaceInv(page, top + Pow2(log), blocks + {Block(top, log)}, top + Pow2(log))
  {
    var b := Block(top, log);
    AlignedAdd(top, log);
    TileOne(b);
    TilesJoin(blocks, {b}, 0, top, EndOf(b));
  }

  lemma {:induction false} BumpState(page: nat, s: State, i: nat)
    requires RoomInv(page, s) && Roomy(page, |s.pc|) && Enabled(s, Bump(i)) && s.pc[i].log < MAX_SIZE
    ensures var s', end := Apply(page, s, Bump(i)), s.nextLoc + Pow2(s.pc[i].log);
            && s'.nextLoc == end
            && s'.top == (if end <= page then end else s.top)
            && s'.owner.Keys == s.owner.Keys + (if end <= page then {Block(s.nextLoc, s.pc[i].log)} else {})
  {
    NoWrap(page, s, s.pc[i].log);
  }

  lemma {:induction false} BumpKeepsSpace(page: nat, s: State, i: nat)
    requires SpaceInv(page, s.nextLoc, s.owner.Keys, s.top) && RoomInv(page, s) && ThreadsInv(page, s)
    requires Roomy(page, |s.pc|) && Enabled(s, Bump(i))
    ensures var s' := Apply(page, s, Bump(i)); SpaceInv(page, s'.nextLoc, s'.owner.Keys, s'.top)
  {
    assert ThreadInv(page, s.owner, s.pc[i], i);
    BumpState(page, s, i);
    if s.nextLoc + Pow2(s.pc[i].log) <= page {
      AppendKeepsSpace(page, s.owner.Keys, s.top, s.pc[i].log);
    } else {
      assert s.owner.Keys + {} == s.owner.Keys;
    }
  }

  lemma {:induction false} CasKeepsSpace(page: nat, s: State, i: nat)
    requires Inv(page, s) && Roomy(page, |s.pc|) && Enabled(s, Cas(i))
    ensures var s' := Apply(page, s, Cas(i)); SpaceInv(page, s'.nextLoc, s'.owner.Keys, s'.top)
  {
    assert ThreadInv(page, s.owner, s.pc[i], i);
    var b := s.pc[i].b;
    assert EndOf(b) <= s.top <= Mul(|s.pc|, page) by { TopRoom(page, s); }
    if s.nextLoc == EndOf(b) {
      TilesDropLast(s.owner.Keys, 0, s.top, b);
      assert (s.owner - {b}).Keys == s.owner.Keys - {b};
      assert Classed(b);
    }
  }

  lemma {:induction false} TopRoom(page: nat, s: State)
    requires SpaceInv(page, s.nextLoc, s.owner.Keys, s.top) && |s.pc| > 0
    ensures s.top <= Mul(|s.pc|, page)
  {
    MulMonotone(1, |s.pc|, page);
    assert Mul(1, page) == page;
  }

  lemma {:induction false} StepKeepsRoom(page: nat, s: State, e: Event)
    requires Inv(page, s) && Roomy(page, |s.pc|) && Enabled(s, e)
    ensures RoomInv(page, Apply(page, s, e))
  {
    var s' := Apply(page, s, e);
    var i := e.i;
    assert ThreadInv(page, s.owner, s.pc[i], i);
    PromisedUpdate(s.pc, i, s'.pc[i]);
    assert s'.pc == s.pc[i := s'.pc[i]];
    match e {
      case Load(_) => LoadKeepsRoom(page, s, i);
      case Bump(_) => NoWrap(page, s, s.pc[i].log);
      case Cas(_) => CasLowers(page, s, i);
      case _ =>
    }
  }

  lemma {:induction false} CasLowers(page: nat, s: State, i: nat)
    requires Inv(page, s) && Roomy(page, |s.pc|) && Enabled(s, Cas(i))
    ensures Apply(page, s, Cas(i)).nextLoc <= s.nextLoc
  {
    assert ThreadInv(page, s.owner, s.pc[i], i);
    assert EndOf(s.pc[i].b) <= s.top <= Mul(|s.pc|, page) by { TopRoom(page, s); }
  }

  lemma {:induction false} LoadKeepsRoom(page: nat, s: State, i: nat)
    requires Inv(page, s) && Roomy(page, |s.pc|) && Enabled(s, Load(i))
    ensures RoomInv(page, Apply(page, s, Load(i)))
  {
    var s' := Apply(page, s, Load(i));
    var log := s.pc[i].log;
    assert ThreadInv(page, s.owner, s.pc[i], i);
    NoWrap(page, s, log);
    PromisedUpdate(s.pc, i, s'.pc[i]);
    forall j | 0 <= j < |s.pc| ensures Claim(s.pc[j]) <= page {
      assert ThreadInv(page, s.owner, s.pc[j], j);
    }
    PromisedBound(s.pc, i, page);
  }

  lemma {:induction false} StepKeepsThreads(page: nat, s: State, e: Event)
    requires Inv(page, s) && Roomy(page, |s.pc|) && Enabled(s, e)
    ensures ThreadsInv(page, Apply(page, s, e))
  {
    var s' := Apply(page, s, e);
    forall j: nat | j < |s'.pc| ensures ThreadInv(page, s'.owner, s'.pc[j], j) {
      if j == e.i { StepKeepsOwn(page, s, e); } else { StepKeepsOther(page, s, e, j); }
    }
  }

  lemma {:induction false} StepKeepsOwn(page: nat, s: State, e: Event)
    requires Inv(page, s) && Roomy(page, |s.pc|) && Enabled(s, e)
    ensures var s' := Apply(page, s, e); ThreadInv(page, s'.owner, s'.pc[e.i], e.i)
  {
    assert ThreadInv(page, s.owner, s.pc[e.i], e.i);
    if e.Load? || e.Bump? { NoWrap(page, s, s.pc[e.i].log); }
  }

  /** What one thread does leaves every block in another thread's hands alone. */
  lemma {:induction false} StepKeepsOther(page: nat, s: State, e: Event, j: nat)
    requires Inv(page, s) && Roomy(page, |s.pc|) && Enabled(s, e) && j < |s.pc| && j != e.i
    ensures var s' := Apply(page, s, e); ThreadInv(page, s'.owner, s'.pc[j], j)
  {
    assert ThreadInv(page, s.owner, s.pc[j], j);
    assert ThreadInv(page, s.owner, s.pc[e.i], e.i);
    if s.pc[j].Releasing? || s.pc[j].Pushing? {
      var b := s.pc[j].b;
      match e {
        case Search(i, taken) => SearchKeepsOwner(s.owner, s.top, taken, s.pc[i].log, b);
        case Bump(i) =>
          NoWrap(page, s, s.pc[i].log);
          assert EndOf(b) <= s.top;
        case _ =>
      }
    }
  }

  lemma {:induction false} InvHolds(page: nat, threads: nat, events: seq<Event>)
    requires Roomy(page, threads)
    ensures Inv(page, Exec(page, threads, events)) && |Exec(page, threads, events).pc| == threads
  {
    if events == [] {
      AllPromised(Exec(page, threads, events).pc, 0);
      MulZero(threads);
    } else {
      var before := events[..|events| - 1];
      var s, e := Exec(page, threads, before), events[|events| - 1];
      InvHolds(page, threads, before);
      if Enabled(s, e) {
        StepKeepsSpace(page, s, e);
        StepKeepsRoom(page, s, e);
        StepKeepsThreads(page, s, e);
      }
    }
  }

  lemma {:induction false} MulZero(n: nat)
    ensures Mul(n, 0) == 0
  {
    if n > 0 { MulZero(n - 1); }
  }

  // ----- when nextLoc wraps

  function Round(k: nat, j: nat): (es: seq<Event>)
  {
    if j == 0 then [] else Round(k, j - 1) + [StartAlloc(j - 1, k), Load(j - 1)]
  }

  function Bumps(k: nat, n: nat, j: nat): (es: seq<Event>)
  {
    if j == 0 then Round(k, n) else Bumps(k, n, j - 1) + [Bump(j - 1)]
  }

  ghost function After(page: nat, s: State, e: Event): (s': State)
  {
    if Enabled(s, e) then Apply(page, s, e) else s
  }

  lemma {:induction false} ExecOne(page: nat, threads: nat, es: seq<Event>, e: Event)
    ensures Exec(page, threads, es + [e]) == After(page, Exec(page, threads, es), e)
  {
    assert (es + [e])[..|es + [e]| - 1] == es;
  }

  lemma {:induction false} ExecTwo(page: nat, threads: nat, es: seq<Event>, e: Event, f: Event)
    ensures Exec(page, threads, es + [e, f]) == After(page, After(page, Exec(page, threads, es), e), f)
  {
    assert es + [e, f] == es + [e] + [f];
    ExecOne(page, threads, es + [e], f);
    ExecOne(page, threads, es, e);
  }

  lemma {:induction false} StartAndLoad(page: nat, s: State, i: nat, log: nat)
    requires i < |s.pc| && s.pc[i] == Idle && MIN_SIZE <= log < MAX_SIZE
    requires (s.nextLoc + Pow2(log)) % UINT32 <= page
    ensures After(page, After(page, s, StartAlloc(i, log)), Load(i)) == s.(pc := s.pc[i := Bumping(log)])
  {
    var t := After(page, s, StartAlloc(i, log));
    assert t.pc[i] == Loading(log);
    assert s.pc[i := Loading(log)][i := Bumping(log)] == s.pc[i := Bumping(log)];
  }

  lemma {:induction false} BumpOnce(page: nat, s: State, i: nat, log: nat, end: nat)
    requires i < |s.pc| && s.pc[i] == Bumping(log) && (s.nextLoc + Pow2(log)) % UINT32 == end
    ensures var s' := After(page, s, Bump(i));
            && s'.nextLoc == end
            && s'.pc == s.pc[i := if end <= page then Idle else Searching(log)]
            && (end <= page ==> Block(s.nextLoc, log) in s'.owner)
  {
  }

  ghost function Loaded(k: nat, threads: nat, j: nat): (pc: seq<PC>)
    ensures |pc| == threads
  {
    seq(threads, i requires 0 <= i => if i < j then Bumping(k) else Idle)
  }

  lemma {:induction false} LoadedMore(k: nat, threads: nat, j: nat)
    requires j < threads
    ensures Loaded(k, threads, j)[j := Bumping(k)] == Loaded(k, threads, j + 1) && Loaded(k, threads, j)[j] == Idle
  {
  }

  /** All threads pass the load before any adds: each asks for the whole page. */
  lemma {:induction false} AllLoad(k: nat, threads: nat, j: nat)
    requires MIN_SIZE <= k < MAX_SIZE && j <= threads
    ensures Exec(Pow2(k), threads, Round(k, j)) == State(0, map[], Loaded(k, threads, j), 0)
  {
    if j == 0 {
      assert Loaded(k, threads, 0) == seq(threads, _ => Idle);
    } else {
      AllLoad(k, threads, j - 1);
      ExecTwo(Pow2(k), threads, Round(k, j - 1), StartAlloc(j - 1, k), Load(j - 1));
      SmallPower(k);
      LoadedMore(k, threads, j - 1);
      StartAndLoad(Pow2(k), State(0, map[], Loaded(k, threads, j - 1), 0), j - 1, k);
    }
  }

  lemma {:induction false} SmallPower(k: nat)
    requires k < MAX_SIZE
    ensures Pow2(k) < UINT32
  {
    Pow2Monotone(k, MAX_SIZE - 1);
    PowValues();
  }

  lemma {:induction false} PowValues()
    ensures Pow2(29) == 0x2000_0000
  {
    assert Pow2(7) == 128;
    assert Pow2(14) == 16384;
    assert Pow2(21) == 0x20_0000;
    assert Pow2(28) == 0x1000_0000;
  }

  ghost predicate Pushed(s: State, k: nat, threads: nat, n: nat, j: nat)
    requires n <= threads
  {
    && s.nextLoc == Mul(j, Pow2(k)) && |s.pc| == threads && (j > 0 ==> threads > 0 && s.pc[0] == Idle)
    && (forall i :: j <= i < n ==> s.pc[i] == Bumping(k))
  }

  lemma {:induction false} BumpPushes(s: State, k: nat, threads: nat, n: nat, j: nat)
    requires j < n <= threads && Mul(n, Pow2(k)) < UINT32 && Pushed(s, k, threads, n, j)
    ensures Pushed(After(Pow2(k), s, Bump(j)), k, threads, n, j + 1)
  {
    MulMonotone(j + 1, n, Pow2(k));
    BumpOnce(Pow2(k), s, j, k, Mul(j + 1, Pow2(k)));
    if j > 0 {
      MulMonotone(1, j, Pow2(k));
      assert Mul(1, Pow2(k)) == Pow2(k);
    } else {
      assert Mul(1, Pow2(k)) == Pow2(k);
    }
  }

  /** Then all add: the first has the page, the others send nextLoc on and on. */
  lemma {:induction false} AllBump(k: nat, threads: nat, n: nat, j: nat)
    requires MIN_SIZE <= k < MAX_SIZE && j <= n <= threads && Mul(n, Pow2(k)) < UINT32
    ensures Pushed(Exec(Pow2(k), threads, Bumps(k, n, j)), k, threads, n, j)
  {
    if j == 0 {
      AllLoad(k, threads, n);
    } else {
      AllBump(k, threads, n, j - 1);
      ExecOne(Pow2(k), threads, Bumps(k, n, j - 1), Bump(j - 1));
      BumpPushes(Exec(Pow2(k), threads, Bumps(k, n, j - 1)), k, threads, n, j - 1);
    }
  }

  lemma {:induction false} SevenEighths(k: nat)
    requires k <= MAX_SIZE - 1
    ensures Mul(7 * Pow2(MAX_SIZE - 1 - k), Pow2(k)) == UINT32 - Pow2(MAX_SIZE - 1)
    decreases MAX_SIZE - k
  {
    PowValues();
    if k == MAX_SIZE - 1 {
      MulIsProduct(7, Pow2(k));
      assert Pow2(0) == 1;
    } else {
      SevenEighths(k + 1);
      var m := 7 * Pow2(MAX_SIZE - 2 - k);
      assert 7 * Pow2(MAX_SIZE - 1 - k) == m + m;
      MulAdd(m, m, Pow2(k));
      MulDouble(m, Pow2(k));
    }
  }

  lemma {:induction false} MulDouble(m: nat, w: nat)
    ensures Mul(m, 2 * w) == Mul(m, w) + Mul(m, w)
  {
    if m > 0 { MulDouble(m - 1, w); }
  }

  lemma {:induction false} MulCancel(a: nat, b: nat, w: nat)
    requires Mul(a, w) <= Mul(b, w) && w > 0
    ensures a <= b
  {
    if a > b {
      MulMonotone(b, a - 1, w);
    }
  }

  /** With too many threads there is a run after which the first thread is idle and the largest block
      wraps the 32-bit nextLoc. */
  lemma {:induction false} OvershootWraps(k: nat, threads: nat) returns (events: seq<Event>)
    requires MIN_SIZE <= k < MAX_SIZE && !Roomy(Pow2(k), threads)
    ensures var s := Exec(Pow2(k), threads, events); |s.pc| > 0 && s.pc[0] == Idle && s.nextLoc == UINT32 - Pow2(29)
    ensures Pow2(k) <= Pow2(29) < UINT32
  {
    var page, n := Pow2(k), 7 * Pow2(MAX_SIZE - 1 - k);
    SevenEighths(k);
    MulCancel(n, threads, page);
    PowValues();
    AllBump(k, threads, n, n);
    events := Bumps(k, n, n);
    Pow2Monotone(k, 29);
  }

  /** The next request for it is then granted outside the page. */
  lemma {:induction false} WrapOnce(page: nat, threads: nat, es: seq<Event>)
    requires var s := Exec(page, threads, es); |s.pc| > 0 && s.pc[0] == Idle && s.nextLoc == UINT32 - Pow2(29)
    requires page <= Pow2(29) < UINT32
    ensures var s := Exec(page, threads, es + [StartAlloc(0, 29), Load(0)]);
            && Enabled(s, Bump(0)) && s.nextLoc == UINT32 - Pow2(29)
            && (s.nextLoc + Pow2(29)) % UINT32 <= page < EndOf(Block(s.nextLoc, 29))
  {
    PowValues();
    StartAndLoad(page, Exec(page, threads, es), 0, 29);
    ExecTwo(page, threads, es, StartAlloc(0, 29), Load(0));
  }

  /** The huge page of 2 MB is safe for up to 1791 threads and not for 1792. */
  lemma {:induction false} HugePageThreads(threads: nat)
    ensures Roomy(Pow2(21), threads) <==> threads <= 1791
  {
    PowValues();
    assert Pow2(7) == 128;
    assert Pow2(14) == 16384;
    assert Pow2(21) == 0x20_0000;
    MulIsProduct(threads, Pow2(21));
  }

  // ----- one thread at a time

  ghost predicate NoRepeats(s: seq<nat>)
  {
    forall i, j :: 0 <= i < j < |s| ==> s[i] != s[j]
  }

  /** The free lists hold exactly the given blocks, each once. */
  ghost predicate Lists(lists: seq<seq<nat>>, free: set<Block>)
  {
    && |lists| == MAX_SIZE
    && (forall b :: b in free <==> b.log < MAX_SIZE && b.off in lists[b.log])
    && (forall i :: 0 <= i < MAX_SIZE ==> NoRepeats(lists[i]))
  }

  lemma {:induction false} ListsPush(lists: seq<seq<nat>>, free: set<Block>, b: Block)
    requires Lists(lists, free) && b !in free && b.log < MAX_SIZE
    ensures Lists(lists[b.log := lists[b.log] + [b.off]], free + {b})
  {
    var after := lists[b.log := lists[b.log] + [b.off]];
    forall c ensures c in free + {b} <==> c.log < MAX_SIZE && c.off in after[c.log] {
      if c.log == b.log { assert c.off in after[c.log] <==> c.off in lists[c.log] || c.off == b.off; }
    }
  }

  lemma {:induction false} ListsPop(lists: seq<seq<nat>>, free: set<Block>, i: nat)
    requires Lists(lists, free) && i < MAX_SIZE && lists[i] != []
    ensures var b := Block(lists[i][|lists[i]| - 1], i);
            b in free && Lists(lists[i := lists[i][..|lists[i]| - 1]], free - {b})
  {
    var last := |lists[i]| - 1;
    var b, after := Block(lists[i][last], i), lists[i := lists[i][..last]];
    forall c ensures c in free - {b} <==> c.log < MAX_SIZE && c.off in after[c.log] {
      if c.log == i {
        assert lists[i] == lists[i][..last] + [b.off];
        assert NoRepeats(lists[i]);
      }
    }
  }

  /** The first list from ll on that is not empty, or MAX_SIZE. */
  method FirstList(lists: seq<seq<nat>>, ll: nat) returns (index: nat)
    requires |lists| == MAX_SIZE && ll <= MAX_SIZE
    ensures ll <= index <= MAX_SIZE && (index < MAX_SIZE ==> lists[index] != [])
    ensures forall i :: ll <= i < index ==> lists[i] == []
  {
    index := ll;
    while index < MAX_SIZE && lists[index] == []
      invariant ll <= index <= MAX_SIZE && forall i :: ll <= i < index ==> lists[i] == []
    {
      index := index + 1;
    }
  }

  lemma {:induction false} NothingFits(lists: seq<seq<nat>>, free: set<Block>, ll: nat, index: nat)
    requires Lists(lists, free) && ll <= index <= MAX_SIZE && (index < MAX_SIZE ==> lists[index] != [])
    requires forall i :: ll <= i < index ==> lists[i] == []
    ensures index == MAX_SIZE <==> forall b :: b in free ==> b.log < ll
  {
    if index < MAX_SIZE { assert Block(lists[index][0], index) in free; }
  }

  /** Pushes the change for a block of exponent index of which the first 2^ll bytes are taken. */
  method GiveChange(lists: seq<seq<nat>>, offset: nat, index: nat, ll: nat, ghost free: set<Block>)
    returns (r: seq<seq<nat>>)
    requires ll < index < MAX_SIZE && Lists(lists, free)
    requires free !! Change(offset + Pow2(ll), index - 1, ll)
    ensures Lists(r, free + Change(offset + Pow2(ll), index - 1, ll))
  {
    r := lists;
    var end := offset + Pow2(index);
    var start: nat := offset + Pow2(ll);
    var i: int := index - 1;
    ghost var pushed := free;
    ghost var goal := free + Change(start, i, ll);
    Pow2Monotone(ll, index - 1);
    while start < end
      invariant ll - 1 <= i < index && Owed(r, pushed, goal, start, i, ll, end)
      decreases i + 1
    {
      OweLess(r, pushed, goal, start, i, ll, end);
      r := r[i := r[i] + [start]];
      pushed := pushed + {Block(start, i)};
      start := start + Pow2(i);
      i := i - 1;
    }
    if i >= ll { Pow2Monotone(ll, i); }
  }

  /** While change is given: what was pushed and what is still owed make up the goal. */
  ghost predicate Owed(lists: seq<seq<nat>>, pushed: set<Block>, goal: set<Block>, start: nat, i: int, ll: nat, end: nat)
    requires i + 1 >= ll
  {
    && Lists(lists, pushed) && pushed !! Change(start, i, ll) && pushed + Change(start, i, ll) == goal
    && start + (Pow2(i + 1) - Pow2(ll)) == end
  }

  lemma {:induction false} OweLess(lists: seq<seq<nat>>, pushed: set<Block>, goal: set<Block>, start: nat, i: int, ll: nat, end: nat)
    requires ll - 1 <= i < MAX_SIZE && Owed(lists, pushed, goal, start, i, ll, end) && start < end
    ensures i >= ll && |lists| == MAX_SIZE
    ensures Owed(lists[i := lists[i] + [start]], pushed + {Block(start, i)}, goal, start + Pow2(i), i - 1, ll, end)
  {
    ChangeFirst(pushed, start, i, ll);
    ListsPush(lists, pushed, Block(start, i));
  }

  /** The last block of a list. */
  method PopBack(lists: seq<seq<nat>>, index: nat, ghost free: set<Block>) returns (offset: nat, r: seq<seq<nat>>)
    requires index < MAX_SIZE && Lists(lists, free) && lists[index] != []
    ensures Block(offset, index) in free && Lists(r, free - {Block(offset, index)})
  {
    var last := |lists[index]| - 1;
    ListsPop(lists, free, index);
    offset := lists[index][last];
    r := lists[index := lists[index][..last]];
  }

  /** Live blocks, free blocks and the tail from nextLoc partition the page. */
  ghost predicate Partition(page: nat, nextLoc: nat, lists: seq<seq<nat>>, live: set<Block>, free: set<Block>)
  {
    && Lists(lists, free) && live !! free
    && nextLoc <= page && SpaceInv(page, nextLoc, live + free, nextLoc)
  }

  /** Takes the last block of a list and gives change for it. */
  method SplitFree(lists: seq<seq<nat>>, index: nat, ll: nat,
                   ghost page: nat, ghost nextLoc: nat, ghost live: set<Block>, ghost free: set<Block>)
    returns (offset: nat, r: seq<seq<nat>>)
    requires Partition(page, nextLoc, lists, live, free) && MIN_SIZE <= ll < index < MAX_SIZE && lists[index] != []
    ensures Block(offset, index) in free && Block(offset, ll) !in live
    ensures Partition(page, nextLoc, r, live + {Block(offset, ll)},
                      free - {Block(offset, index)} + Change(offset + Pow2(ll), index - 1, ll))
  {
    offset, r := PopBack(lists, index, free);
    SplitMoves(page, nextLoc, live, free, Block(offset, index), ll);
    r := GiveChange(r, offset, index, ll, free - {Block(offset, index)});
  }

  datatype Outcome = Offset(offset: nat) | OutOfMemory | TooLarge

  class Backend {
    const page: nat
    var nextLoc: nat
    var freeOffsets: seq<seq<nat>>
    ghost var live: set<Block>
    ghost var free: set<Block>

    ghost predicate Valid()
      reads this
    {
      Partition(page, nextLoc, freeOffsets, live, free)
    }

    constructor (size: nat)
      ensures Valid() && page == size && nextLoc == 0 && live == {} && free == {}
    {
      page := size;
      nextLoc := 0;
      freeOffsets := seq(MAX_SIZE, _ => []);
      live := {};
      free := {};
    }

    method PushFree(offset: nat, index: nat)
      requires index < MAX_SIZE && Lists(freeOffsets, free) && Block(offset, index) !in free
      modifies `freeOffsets, `free
      ensures free == old(free) + {Block(offset, index)} && Lists(freeOffsets, free)
    {
      ListsPush(freeOffsets, free, Block(offset, index));
      freeOffsets := freeOffsets[index := freeOffsets[index] + [offset]];
      free := free + {Block(offset, index)};
    }

    method TakeExact(ll: nat) returns (offset: nat)
      requires Valid() && ll < MAX_SIZE && freeOffsets[ll] != []
      modifies `freeOffsets, `free, `live
      ensures Valid() && Block(offset, ll) in old(free) && Block(offset, ll) !in old(live)
      ensures live == old(live) + {Block(offset, ll)} && free == old(free) - {Block(offset, ll)}
    {
      offset, freeOffsets := PopBack(freeOffsets, ll, free);
      free := free - {Block(offset, ll)};
      live := live + {Block(offset, ll)};
      assert live + free == old(live + free);
    }

    /** The first piece of a larger block, the rest given as change. */
    method TakeLarger(index: nat, ll: nat) returns (offset: nat)
      requires Valid() && MIN_SIZE <= ll < index < MAX_SIZE && freeOffsets[index] != []
      modifies `freeOffsets, `free, `live
      ensures Valid() && Block(offset, index) in old(free) && Block(offset, ll) !in old(live)
      ensures live == old(live) + {Block(offset, ll)}
      ensures free == old(free) - {Block(offset, index)} + Change(offset + Pow2(ll), index - 1, ll)
    {
      offset, freeOffsets := SplitFree(freeOffsets, index, ll, page, nextLoc, live, free);
      free := free - {Block(offset, index)} + Change(offset + Pow2(ll), index - 1, ll);
      live := live + {Block(offset, ll)};
    }

    /** The search under the lock: the exact list first, else the smallest list of larger blocks. */
    method FromFree(ll: nat) returns (r: Outcome)
      requires Valid() && MIN_SIZE <= ll < MAX_SIZE
      modifies `freeOffsets, `free, `live
      ensures Valid() && !r.TooLarge?
      ensures r.OutOfMemory? <==> forall b :: b in old(free) ==> b.log < ll
      ensures r.OutOfMemory? ==> live == old(live) && free == old(free)
      ensures r.Offset? ==> Block(r.offset, ll) !in old(live) && live == old(live) + {Block(r.offset, ll)}
    {
      var index := ll;
      if freeOffsets[index] != [] {
        var offset := TakeExact(index);
        return Offset(offset);
      }
      index := FirstList(freeOffsets, ll);
      NothingFits(freeOffsets, free, ll, index);
      if index == MAX_SIZE { return OutOfMemory; }
      var offset := TakeLarger(index, ll);
      r := Offset(offset);
    }

    /** Memory runs out exactly when neither the tail nor a free block has room. */
    method AllocOffset(sz: nat) returns (r: Outcome)
      requires Valid()
      modifies this
      ensures Valid()
      ensures r.TooLarge? <==> sz > Pow2(MAX_SIZE - 1)
      ensures r.TooLarge? || r.OutOfMemory? ==> live == old(live) && free == old(free) && nextLoc == old(nextLoc)
      ensures forall log :: ClassOf(sz, log) ==>
                (r.OutOfMemory? <==> old(nextLoc) + Pow2(log) > page && forall b :: b in old(free) ==> b.log < log)
      ensures forall log :: ClassOf(sz, log) && r.Offset? ==>
                Block(r.offset, log) !in old(live) && live == old(live) + {Block(r.offset, log)}
    {
      var class_ := NextLog2(sz);
      forall log | ClassOf(sz, log) ensures class_.Some? { Pow2Monotone(log, MAX_SIZE - 1); }
      if class_.None? { return TooLarge; }
      var ll := class_.value;
      forall log | ClassOf(sz, log) ensures log == ll { ClassUnique(sz, log, ll); }
      var size := Pow2(ll);
      if nextLoc + size <= page {
        AppendKeepsSpace(page, live + free, nextLoc, ll);
        assert live + {Block(nextLoc, ll)} + free == live + free + {Block(nextLoc, ll)};
        r := Offset(nextLoc);
        live := live + {Block(nextLoc, ll)};
        nextLoc := nextLoc + size;
        return;
      }
      r := FromFree(ll);
    }

    /** The last block gives its bytes back to the tail, any other goes on the list of its class. */
    method DeallocOffset(offset: nat, sz: nat, ghost log: nat)
      requires Valid() && ClassOf(sz, log) && Block(offset, log) in live
      modifies this
      ensures Valid() && live == old(live) - {Block(offset, log)}
      ensures if old(nextLoc) == offset + Pow2(log)
              then nextLoc == offset && free == old(free)
              else nextLoc == old(nextLoc) && free == old(free) + {Block(offset, log)}
    {
      var class_ := NextLog2(sz);
      Pow2Monotone(log, MAX_SIZE - 1);
      var ll := class_.value;
      ClassUnique(sz, log, ll);
      ghost var b := Block(offset, ll);
      var expected := offset + Pow2(ll);
      live := live - {b};
      if nextLoc == expected {
        TilesDropLast(old(live) + free, 0, nextLoc, b);
        assert live + free == old(live) + free - {b};
        nextLoc := offset;
      } else {
        PushFree(offset, ll);
        assert live + free == old(live) + old(free);
      }
    }
  }

  lemma {:induction false} SetMoves(live: set<Block>, free: set<Block>, b: Block, first: Block, change: set<Block>)
    requires live !! free && b in free && first !in change && (live + free - {b}) !! ({first} + change)
    ensures var live', free' := live + {first}, free - {b} + change;
            && live' + free' == live + free - {b} + ({first} + change) && live' !! free'
            && free - {b} !! change && first !in live
  {
    var rest := live + free - {b};
    assert first !in rest;
    forall c | c in change ensures c !in live && c !in free - {b} { assert c !in rest; }
  }

  /** Splitting moves the first piece to the live blocks and the change to the free ones. */
  lemma {:induction false} SplitMoves(page: nat, nextLoc: nat, live: set<Block>, free: set<Block>, b: Block, log: nat)
    requires SpaceInv(page, nextLoc, live + free, nextLoc) && live !! free && b in free
    requires MIN_SIZE <= log < b.log
    ensures var change := Change(b.off + Pow2(log), b.log - 1, log);
            var live', free' := live + {Block(b.off, log)}, free - {b} + change;
            && SpaceInv(page, nextLoc, live' + free', nextLoc) && live' !! free'
            && free - {b} !! change && Block(b.off, log) !in live
  {
    SplitTiles(b, log);
    PiecesApart(live + free, nextLoc, b, log);
    forall c | c in Pieces(b, log) ensures Classed(c) { PiecesClassed(b, log, c); }
    SplitKeepsSpace(page, nextLoc, live + free, nextLoc, b, Pieces(b, log));
    SetMoves(live, free, b, Block(b.off, log), Change(b.off + Pow2(log), b.log - 1, log));
  }

  lemma {:induction false} ChangeFirst(free: set<Block>, start: nat, i: int, log: nat)
    requires i + 1 >= log && Pow2(i + 1) > Pow2(log) && free !! Change(start, i, log)
    ensures i >= log
    ensures free + {Block(start, i)} + Change(start + Pow2(i), i - 1, log) == free + Change(start, i, log)
    ensures free + {Block(start, i)} !! Change(start + Pow2(i), i - 1, log) && Block(start, i) !in free
  {
    assert i >= log;
    ChangeTiles(start + Pow2(i), i - 1, log);
    assert Block(start, i) in Change(start, i, log);
    assert Block(start, i) !in Change(start + Pow2(i), i - 1, log);
  }
}
