/** Graph images of version 1 and 2: a header of four 64-bit words, the index of the nodes' last
    edges, the destinations, of 32 bits in version 1 and of 64 in version 2, padded to an even
    number, the edge data; written from arrays, read in place from memory, from a file or from
    slices of a file. */
module FileGraph {
  import opened Arith
  import opened Bytes
  import opened Wrappers

  // ----- records side by side

  /** A pointer into mapped memory. */
  datatype Ptr = Ptr(mem: seq<byte>, off: nat)

  ghost predicate HoldsAt(p: Ptr, bs: seq<byte>)
  {
    p.off + |bs| <= |p.mem| && p.mem[p.off..p.off + |bs|] == bs
  }

  function Pack(rs: seq<seq<byte>>): (s: seq<byte>)
  {
    if rs == [] then [] else Pack(rs[..|rs| - 1]) + rs[|rs| - 1]
  }

  ghost predicate Uniform(rs: seq<seq<byte>>, w: nat) { forall i :: 0 <= i < |rs| ==> |rs[i]| == w }

  lemma {:induction false} PackLength(rs: seq<seq<byte>>, w: nat)
    requires Uniform(rs, w)
    ensures |Pack(rs)| == Mul(|rs|, w)
  {
    if rs != [] { PackLength(rs[..|rs| - 1], w); }
  }

  /** Record i starts i records in. */
  lemma {:induction false} PackAt(rs: seq<seq<byte>>, w: nat, i: nat)
    requires Uniform(rs, w) && i < |rs|
    ensures Mul(i, w) + w <= |Pack(rs)| && Pack(rs)[Mul(i, w)..Mul(i, w) + w] == rs[i]
  {
    var front := rs[..|rs| - 1];
    PackLength(front, w);
    if i < |rs| - 1 {
      PackAt(front, w, i);
      assert Pack(rs)[Mul(i, w)..Mul(i, w) + w] == Pack(front)[Mul(i, w)..Mul(i, w) + w];
    } else {
      assert front == rs[..i];
      assert Pack(rs)[Mul(i, w)..Mul(i, w) + w] == rs[i];
    }
  }

  function Words(vs: seq<nat>, w: nat): (rs: seq<seq<byte>>)
    ensures |rs| == |vs| && Uniform(rs, w)
  {
    seq(|vs|, i requires 0 <= i < |vs| => Le(vs[i], w))
  }

  // ----- graphs and their images

  /** index[v] is one past the last edge of v; data holds one record of sizeofEdge bytes per edge. */
  datatype Graph = Graph(version: nat, index: seq<nat>, dsts: seq<nat>, sizeofEdge: nat, data: seq<seq<byte>>)

  /** The bytes of a destination. */
  function DstSize(version: nat): (w: nat) { if version == 1 then 4 else 8 }

  ghost predicate Storable(g: Graph)
  {
    && (g.version == 1 || g.version == 2)
    && |g.index| < UINT64 && |g.dsts| < UINT64 && g.sizeofEdge < UINT64
    && (forall i :: 0 <= i < |g.index| ==> g.index[i] < UINT64)
    && (forall i :: 0 <= i < |g.dsts| ==> g.dsts[i] < if g.version == 1 then UINT32 else UINT64)
    && |g.data| == |g.dsts| && Uniform(g.data, g.sizeofEdge)
  }

  ghost predicate Sized(g: Graph, version: nat, n: nat, e: nat, w: nat)
  {
    Storable(g) && g.version == version && |g.index| == n && |g.dsts| == e && g.sizeofEdge == w
  }

  /** Version, size of an edge record, numbers of nodes and edges. */
  function HeaderVals(version: nat, sizeofEdge: nat, numNodes: nat, numEdges: nat): (vs: seq<nat>)
  {
    [version, sizeofEdge, numNodes, numEdges]
  }

  function Header(g: Graph): (s: seq<byte>)
    ensures |s| == 32
  {
    var vs := HeaderVals(g.version, g.sizeofEdge, |g.index|, |g.dsts|);
    PackLength(Words(vs, 8), 8);
    MulIsProduct(4, 8);
    Pack(Words(vs, 8))
  }

  function Dsts(g: Graph): (s: seq<byte>) { Pack(Words(g.dsts, DstSize(g.version))) }

  function Zeros(n: nat): (s: seq<byte>)
    ensures |s| == n
  {
    seq(n, _ => 0)
  }

  /** What fromArrays and fromMem skip behind the destinations. */
  function Padding(version: nat, e: nat): (b: nat)
  {
    if e % 2 == 0 then 0 else DstSize(version)
  }

  function Front(g: Graph): (s: seq<byte>)
  {
    Header(g) + Pack(Words(g.index, 8)) + Dsts(g)
  }

  function Image(g: Graph): (s: seq<byte>)
  {
    Front(g) + Zeros(Padding(g.version, |g.dsts|)) + Pack(g.data)
  }

  /** What rawBlockSize counts for an image: in version 2 it leaves out the padding. */
  function RawBlockSize(version: nat, numNodes: nat, numEdges: nat, sizeofEdgeData: nat): (bytes: nat)
  {
    var head := 8 * 4 + 8 * numNodes;
    (if version == 1 then
       if numEdges % 2 != 0 then head + 4 * numEdges + 4 else head + 4 * numEdges
     else head + 8 * numEdges) + sizeofEdgeData * numEdges
  }

  /** Where the edge data starts. */
  function Base(version: nat, n: nat, e: nat): (b: nat)
  {
    32 + 8 * n + (if version == 1 then 4 * e else 8 * e) + Padding(version, e)
  }

  /** The images rawBlockSize counts in full. */
  predicate Counted(version: nat, e: nat) { version == 1 || e % 2 == 0 }

  /** rawBlockSize is the size of an image, and without edge data the place where that starts,
      exactly in version 1 or for an even number of edges; otherwise it is one padding short. */
  lemma {:induction false} SizeSplits(version: nat, n: nat, e: nat, w: nat)
    ensures RawBlockSize(version, n, e, w) == Base(version, n, e) + Mul(e, w) <==> Counted(version, e)
    ensures !Counted(version, e) ==> RawBlockSize(version, n, e, w) + 8 == Base(version, n, e) + Mul(e, w)
    ensures RawBlockSize(version, n, e, 0) + Mul(e, w) == RawBlockSize(version, n, e, w)
  {
    MulIsProduct(e, w);
  }

  lemma {:induction false} SectionLengths(g: Graph)
    requires Storable(g)
    ensures |Pack(Words(g.index, 8))| == 8 * |g.index|
    ensures |Dsts(g)| == if g.version == 1 then 4 * |g.dsts| else 8 * |g.dsts|
    ensures |Pack(g.data)| == Mul(|g.dsts|, g.sizeofEdge)
    ensures |Front(g)| + Padding(g.version, |g.dsts|) == Base(g.version, |g.index|, |g.dsts|)
  {
    PackLength(Words(g.index, 8), 8);
    PackLength(Words(g.dsts, DstSize(g.version)), DstSize(g.version));
    PackLength(g.data, g.sizeofEdge);
    MulIsProduct(|g.index|, 8);
    MulIsProduct(|g.dsts|, DstSize(g.version));
  }

  /** Header, index and destinations lie one after the other. */
  ghost predicate FrontLaidOut(s: seq<byte>, g: Graph)
  {
    HoldsAt(Ptr(s, 0), Header(g)) && HoldsAt(Ptr(s, 32), Pack(Words(g.index, 8)))
    && HoldsAt(Ptr(s, 32 + 8 * |g.index|), Dsts(g))
  }

  /** And behind the padding, which is free, the edge data to the end. */
  ghost predicate LaidOut(s: seq<byte>, g: Graph)
  {
    && FrontLaidOut(s, g)
    && |s| == Base(g.version, |g.index|, |g.dsts|) + |Pack(g.data)|
    && HoldsAt(Ptr(s, Base(g.version, |g.index|, |g.dsts|)), Pack(g.data))
  }

  lemma {:induction false} Sections(h: seq<byte>, a: seq<byte>, b: seq<byte>, rest: seq<byte>)
    ensures var s := h + a + b + rest;
            HoldsAt(Ptr(s, 0), h) && HoldsAt(Ptr(s, |h|), a) && HoldsAt(Ptr(s, |h| + |a|), b)
  {
    var s := h + a + b + rest;
    assert s[0..|h|] == h;
    assert s[|h|..|h| + |a|] == a;
    assert s[|h| + |a|..|h| + |a| + |b|] == b;
  }

  /** Whatever follows them. */
  lemma {:induction false} FrontParts(g: Graph, rest: seq<byte>)
    requires Storable(g)
    ensures FrontLaidOut(Front(g) + rest, g)
  {
    SectionLengths(g);
    Sections(Header(g), Pack(Words(g.index, 8)), Dsts(g), rest);
  }

  lemma {:induction false} LastPart(f: seq<byte>, z: seq<byte>, d: seq<byte>)
    ensures HoldsAt(Ptr(f + z + d, |f| + |z|), d)
  {
  }

  /** What fromArrays writes is laid out as what is read expects. */
  lemma {:induction false} ImageParts(g: Graph)
    requires Storable(g)
    ensures LaidOut(Image(g), g)
  {
    SectionLengths(g);
    var z := Zeros(Padding(g.version, |g.dsts|));
    AppendOne(Front(g), z, Pack(g.data));
    FrontParts(g, z + Pack(g.data));
    LastPart(Front(g), z, Pack(g.data));
  }

  // ----- writing

  /** Stores bytes at a place, as the pointer writes and memcpy of the source do. */
  method Put(m: array<byte>, at: nat, bs: seq<byte>) returns (next: nat)
    requires at + |bs| <= m.Length
    modifies m
    ensures next == at + |bs|
    ensures m[..next] == old(m[..at]) + bs && m[next..] == old(m[at + |bs|..])
  {
    for i := 0 to |bs|
      invariant m[..at] == old(m[..at]) && m[at..at + i] == bs[..i]
      invariant m[at + i..] == old(m[at + i..])
    {
      m[at + i] := bs[i];
      assert m[at..at + i + 1] == m[at..at + i] + [bs[i]];
    }
    next := at + |bs|;
    assert m[..next] == m[..at] + m[at..next];
  }

  lemma {:induction false} WordsGrow(vs: seq<nat>, w: nat, i: nat)
    requires i < |vs|
    ensures Pack(Words(vs[..i + 1], w)) == Pack(Words(vs[..i], w)) + Le(vs[i], w)
    ensures |Pack(Words(vs[..i + 1], w))| <= |Pack(Words(vs, w))|
  {
    var rs := Words(vs[..i + 1], w);
    assert rs[..i] == Words(vs[..i], w);
    PackLength(rs, w);
    PackLength(Words(vs, w), w);
    MulMonotone(i + 1, |vs|, w);
  }

  /** Stores words one after the other. */
  method PutWords(m: array<byte>, at: nat, vs: seq<nat>, w: nat) returns (next: nat)
    requires at + |Pack(Words(vs, w))| <= m.Length
    modifies m
    ensures next == at + |Pack(Words(vs, w))|
    ensures m[..next] == old(m[..at]) + Pack(Words(vs, w)) && m[next..] == old(m[at + |Pack(Words(vs, w))|..])
  {
    next := at;
    ghost var s := m[..];
    for i := 0 to |vs|
      invariant next == at + |Pack(Words(vs[..i], w))| <= m.Length
      invariant m[..next] == s[..at] + Pack(Words(vs[..i], w)) && m[next..] == s[next..]
    {
      WordsGrow(vs, w, i);
      SuffixShrinks(m[..], s, next, next + w);
      AppendOne(s[..at], Pack(Words(vs[..i], w)), Le(vs[i], w));
      next := Put(m, next, Le(vs[i], w));
    }
    assert vs[..|vs|] == vs;
  }

  lemma {:induction false} SuffixShrinks(s: seq<byte>, t: seq<byte>, a: nat, b: nat)
    requires a <= b <= |s| == |t| && s[a..] == t[a..]
    ensures s[b..] == t[b..]
  {
    assert s[b..] == s[a..][b - a..] && t[b..] == t[a..][b - a..];
  }

  lemma {:induction false} AppendOne(a: seq<byte>, b: seq<byte>, c: seq<byte>)
    ensures a + b + c == a + (b + c)
  {
  }

  lemma {:induction false} ZerosSplit(n: nat, k: nat)
    requires k <= n
    ensures Zeros(n) == Zeros(k) + Zeros(n - k)
  {
  }

  /** Records of zeros, what the edge data section holds when none is copied. */
  function Blank(n: nat, w: nat): (rs: seq<seq<byte>>)
    ensures |rs| == n && Uniform(rs, w)
  {
    seq(n, _ => Zeros(w))
  }

  lemma {:induction false} PackBlank(n: nat, w: nat)
    ensures Pack(Blank(n, w)) == Zeros(Mul(n, w))
  {
    if n > 0 {
      PackBlank(n - 1, w);
      assert Blank(n, w)[..n - 1] == Blank(n - 1, w);
      ZerosSplit(Mul(n, w), Mul(n - 1, w));
    }
  }

  /** What was written, then zeros. */
  ghost predicate Filled(s: seq<byte>, w: seq<byte>)
  {
    |w| <= |s| && s == w + Zeros(|s| - |w|)
  }

  lemma {:induction false} FilledMore(s: seq<byte>, t: seq<byte>, w: seq<byte>, bs: seq<byte>)
    requires Filled(s, w) && |w| + |bs| <= |s| == |t|
    requires t[..|w| + |bs|] == s[..|w|] + bs && t[|w| + |bs|..] == s[|w| + |bs|..]
    ensures Filled(t, w + bs)
  {
    assert s[..|w|] == w;
    assert s[|w| + |bs|..] == Zeros(|s| - |w| - |bs|);
    assert t == t[..|w| + |bs|] + t[|w| + |bs|..];
  }

  lemma {:induction false} FilledSkip(s: seq<byte>, w: seq<byte>, k: nat)
    requires Filled(s, w) && |w| + k <= |s|
    ensures Filled(s, w + Zeros(k))
  {
    ZerosSplit(|s| - |w|, k);
  }

  /** The two arrays as the caller has them: values to be converted to file order, or memory that
      is in file order already. */
  datatype Arrays =
    | Unconverted(idx: seq<nat>, outs: seq<nat>)
    | Converted(idxMem: Ptr, numNodes: nat, outsMem: Ptr, numEdges: nat)

  /** The arrays are the index and the destinations of a graph. */
  ghost predicate Given(a: Arrays, g: Graph)
  {
    match a
    case Unconverted(idx, outs) => idx == g.index && outs == g.dsts
    case Converted(idxMem, n, outsMem, e) =>
      && n == |g.index| && HoldsAt(idxMem, Pack(Words(g.index, 8)))
      && e == |g.dsts| && HoldsAt(outsMem, Dsts(g))
  }

  function Nodes(a: Arrays): (n: nat) { if a.Unconverted? then |a.idx| else a.numNodes }

  function Edges(a: Arrays): (n: nat) { if a.Unconverted? then |a.outs| else a.numEdges }

  /** One array: word by word, or copied. */
  method PutArray(m: array<byte>, at: nat, converted: bool, vs: seq<nat>, mem: Ptr, count: nat, w: nat, ghost rs: seq<nat>)
    returns (next: nat)
    requires at + |Pack(Words(rs, w))| <= m.Length && |Pack(Words(rs, w))| == w * count
    requires if converted then HoldsAt(mem, Pack(Words(rs, w))) else vs == rs
    modifies m
    ensures next == at + |Pack(Words(rs, w))|
    ensures m[..next] == old(m[..at]) + Pack(Words(rs, w)) && m[next..] == old(m[at + |Pack(Words(rs, w))|..])
  {
    if converted {
      next := Put(m, at, mem.mem[mem.off..mem.off + w * count]);
    } else {
      next := PutWords(m, at, vs, w);
    }
  }

  method PutIndex(m: array<byte>, next: nat, a: Arrays, ghost g: Graph) returns (next': nat)
    requires Storable(g) && Given(a, g) && next == 32 && Filled(m[..], Header(g))
    requires m.Length >= 32 + |Pack(Words(g.index, 8))|
    modifies m
    ensures next' == |Header(g) + Pack(Words(g.index, 8))| && Filled(m[..], Header(g) + Pack(Words(g.index, 8)))
  {
    SectionLengths(g);
    ghost var s := m[..];
    match a {
      case Unconverted(idx, outs) => next' := PutArray(m, next, false, idx, Ptr([], 0), |idx|, 8, g.index);
      case Converted(idxMem, n, outsMem, e) => next' := PutArray(m, next, true, [], idxMem, n, 8, g.index);
    }
    FilledMore(s, m[..], Header(g), Pack(Words(g.index, 8)));
  }

  method PutDsts(m: array<byte>, next: nat, a: Arrays, version: nat, ghost g: Graph) returns (next': nat)
    requires Storable(g) && Given(a, g) && version == g.version
    requires next == |Header(g) + Pack(Words(g.index, 8))| && Filled(m[..], Header(g) + Pack(Words(g.index, 8)))
    requires m.Length >= |Front(g)|
    modifies m
    ensures next' == |Front(g)| && Filled(m[..], Front(g))
  {
    SectionLengths(g);
    ghost var s := m[..];
    var w := DstSize(version);
    match a {
      case Unconverted(idx, outs) => next' := PutArray(m, next, false, outs, Ptr([], 0), |outs|, w, g.dsts);
      case Converted(idxMem, n, outsMem, e) => next' := PutArray(m, next, true, [], outsMem, e, w, g.dsts);
    }
    FilledMore(s, m[..], Header(g) + Pack(Words(g.index, 8)), Dsts(g));
  }

  /** Header, index and destinations. */
  method PutFront(m: array<byte>, a: Arrays, version: nat, sizeofEdge: nat, ghost g: Graph) returns (next: nat)
    requires Storable(g) && Given(a, g) && version == g.version && sizeofEdge == g.sizeofEdge
    requires Filled(m[..], []) && m.Length >= |Front(g)|
    modifies m
    ensures next == |Front(g)| && Filled(m[..], Front(g))
  {
    ghost var s := m[..];
    var vs := HeaderVals(version, sizeofEdge, Nodes(a), Edges(a));
    assert Pack(Words(vs, 8)) == Header(g);
    next := PutWords(m, 0, vs, 8);
    FilledMore(s, m[..], [], Header(g));
    assert [] + Header(g) == Header(g);
    next := PutIndex(m, next, a, g);
    next := PutDsts(m, next, a, version, g);
  }

  lemma {:induction false} FilledFull(s: seq<byte>, w: seq<byte>)
    requires Filled(s, w) && |s| == |w|
    ensures s == w
  {
  }

  /** The edge data is given, or there is none and the section stays blank. */
  ghost predicate DataGiven(edgeData: Option<Ptr>, g: Graph)
  {
    if edgeData.Some? then HoldsAt(edgeData.value, Pack(g.data)) else g.data == Blank(|g.dsts|, g.sizeofEdge)
  }

  /** The copy of the edge data stays inside the memory. */
  predicate Fits(version: nat, e: nat, w: nat, edgeData: Option<Ptr>)
  {
    Counted(version, e) || edgeData.None? || w == 0
  }

  lemma {:induction false} ImageIsFilled(g: Graph, s: seq<byte>)
    requires Storable(g) && Filled(s, Front(g)) && g.data == Blank(|g.dsts|, g.sizeofEdge)
    requires |s| <= |Image(g)|
    ensures s <= Image(g)
  {
    var z := Padding(g.version, |g.dsts|);
    PackBlank(|g.dsts|, g.sizeofEdge);
    ZerosSplit(z + Mul(|g.dsts|, g.sizeofEdge), z);
    AppendOne(Front(g), Zeros(z), Pack(g.data));
    ZerosSplit(z + Mul(|g.dsts|, g.sizeofEdge), |s| - |Front(g)|);
  }

  lemma {:induction false} NoData(g: Graph)
    requires Storable(g) && g.sizeofEdge == 0
    ensures g.data == Blank(|g.dsts|, 0)
  {
  }

  lemma {:induction false} DataSize(g: Graph)
    requires Storable(g)
    ensures |Pack(g.data)| == g.sizeofEdge * |g.dsts|
  {
    SectionLengths(g);
    Product(g.sizeofEdge, |g.dsts|);
  }

  /** Copies the edge data, if there is any, behind the padding. */
  method PutData(m: array<byte>, next: nat, edgeData: Option<Ptr>, version: nat, n: nat, w: nat, ghost g: Graph)
    requires Storable(g) && DataGiven(edgeData, g) && version == g.version && n == |g.dsts| && w == g.sizeofEdge
    requires Filled(m[..], Front(g)) && next == |Front(g)| + Padding(g.version, n)
    requires m.Length == RawBlockSize(g.version, |g.index|, n, w) && Fits(g.version, n, w, edgeData)
    modifies m
    ensures m[..] <= Image(g)
  {
    ImageSizes(g);
    DataSize(g);
    if edgeData.Some? && Counted(version, n) {
      ghost var z := Padding(version, n);
      FilledSkip(m[..], Front(g), z);
      ghost var s := m[..];
      var p := edgeData.value;
      var end := Put(m, next, p.mem[p.off..p.off + w * n]);
      FilledMore(s, m[..], Front(g) + Zeros(z), Pack(g.data));
      FilledFull(m[..], Image(g));
    } else {
      if edgeData.Some? { NoData(g); }
      ImageIsFilled(g, m[..]);
    }
  }

  lemma {:induction false} PrefixFront(s: seq<byte>, g: Graph)
    requires s <= Image(g) && |s| >= |Front(g)|
    ensures Front(g) <= s
  {
    AppendOne(Front(g), Zeros(Padding(g.version, |g.dsts|)), Pack(g.data));
    assert Front(g) <= Image(g);
  }

  lemma {:induction false} ImageSizes(g: Graph)
    requires Storable(g)
    ensures var w, e := g.sizeofEdge, |g.dsts|;
            var raw, base := RawBlockSize(g.version, |g.index|, e, w), |Front(g)| + Padding(g.version, e);
            && |Front(g)| <= raw <= |Image(g)| && (Counted(g.version, e) ==> raw == |Image(g)|)
            && (base + w * e > raw && w * e > 0 <==> !Counted(g.version, e) && w > 0)
  {
    SectionLengths(g);
    SizeSplits(g.version, |g.index|, |g.dsts|, g.sizeofEdge);
    Product(g.sizeofEdge, |g.dsts|);
    if g.sizeofEdge > 0 { NotEmpty(|g.dsts|, g.sizeofEdge); } else { MulIsProduct(|g.dsts|, 0); }
  }

  /** Writes an image into fresh memory of the size rawBlockSize counts. None is a copy of edge data
      that runs past that memory: it happens exactly for an odd number of edges in version 2.
      Otherwise the memory holds the image, in full where rawBlockSize counts it in full. */
  method WriteImage(a: Arrays, edgeData: Option<Ptr>, version: nat, sizeofEdge: nat, ghost g: Graph)
    returns (r: Option<array<byte>>)
    requires Storable(g) && Given(a, g) && DataGiven(edgeData, g) && version == g.version && sizeofEdge == g.sizeofEdge
    ensures r.Some? <==> Fits(version, |g.dsts|, sizeofEdge, edgeData)
    ensures r.Some? ==> fresh(r.value) && Front(g) <= r.value[..] <= Image(g)
    ensures r.Some? && Counted(version, |g.dsts|) ==> r.value[..] == Image(g)
  {
    ImageSizes(g);
    var e := Edges(a);
    var bytes := RawBlockSize(version, Nodes(a), e, sizeofEdge);
    var m := new byte[bytes](_ => 0);
    assert m[..] == [] + Zeros(bytes);
    var next := PutFront(m, a, version, sizeofEdge, g);
    if e % 2 != 0 { next := next + DstSize(version); }
    if edgeData.Some? && next + sizeofEdge * e > bytes && sizeofEdge * e > 0 { return None; }
    PutData(m, next, edgeData, version, e, sizeofEdge, g);
    PrefixFront(m[..], g);
    r := Some(m);
  }

  // ----- reading in place

  predicate Readable(p: Ptr, i: nat, w: nat) { p.off + w * i + w <= |p.mem| }

  function Read(p: Ptr, i: nat, w: nat): (v: nat)
    requires Readable(p, i, w)
  {
    FromLe(p.mem[p.off + w * i..p.off + w * i + w])
  }

  /** Element i of an array of records that a pointer holds. */
  lemma {:induction false} RecordAt(p: Ptr, rs: seq<seq<byte>>, w: nat, i: nat)
    requires Uniform(rs, w) && HoldsAt(p, Pack(rs)) && i < |rs|
    ensures Readable(p, i, w) && p.mem[p.off + w * i..p.off + w * i + w] == rs[i]
  {
    PackAt(rs, w, i);
    MulIsProduct(i, w);
    var k := Mul(i, w);
    assert i * w == w * i;
    SubSlice(p.mem, p.off, p.off + |Pack(rs)|, k, k + w);
  }

  lemma {:induction false} SubSlice(s: seq<byte>, lo: nat, hi: nat, i: nat, j: nat)
    requires lo <= hi <= |s| && i <= j <= hi - lo
    ensures s[lo..hi][i..j] == s[lo + i..lo + j]
  {
    var t, u := s[lo..hi][i..j], s[lo + i..lo + j];
    forall k | 0 <= k < |t| ensures t[k] == u[k] { assert t[k] == s[lo..hi][i + k]; }
  }

  lemma {:induction false} Word64At(p: Ptr, vs: seq<nat>, i: nat)
    requires HoldsAt(p, Pack(Words(vs, 8))) && i < |vs| && vs[i] < UINT64
    ensures Readable(p, i, 8) && Read(p, i, 8) == vs[i]
  {
    RecordAt(p, Words(vs, 8), 8, i);
    Word64(vs[i]);
  }

  lemma {:induction false} Word32At(p: Ptr, vs: seq<nat>, i: nat)
    requires HoldsAt(p, Pack(Words(vs, 4))) && i < |vs| && vs[i] < UINT32
    ensures Readable(p, i, 4) && Read(p, i, 4) == vs[i]
  {
    RecordAt(p, Words(vs, 4), 4, i);
    Word32(vs[i]);
  }

  lemma {:induction false} SliceBounds(rs: seq<seq<byte>>, w: nat, lo: nat, hi: nat)
    requires Uniform(rs, w) && lo <= hi <= |rs|
    ensures Mul(lo, w) <= Mul(hi, w) <= |Pack(rs)|
  {
    MulMonotone(lo, hi, w);
    PackLength(rs, w);
    MulMonotone(hi, |rs|, w);
  }

  /** A run of records is a slice of the packed bytes. */
  lemma {:induction false} PackSlice(rs: seq<seq<byte>>, w: nat, lo: nat, hi: nat)
    requires Uniform(rs, w) && lo <= hi <= |rs|
    ensures Mul(lo, w) <= Mul(hi, w) <= |Pack(rs)| && Pack(rs)[Mul(lo, w)..Mul(hi, w)] == Pack(rs[lo..hi])
    decreases hi
  {
    SliceBounds(rs, w, lo, hi);
    if lo < hi {
      PackSlice(rs, w, lo, hi - 1);
      PackAt(rs, w, hi - 1);
      PackSnoc(rs, lo, hi);
      JoinSlices(Pack(rs), Mul(lo, w), Mul(hi - 1, w), Mul(hi, w), Pack(rs[lo..hi - 1]), rs[hi - 1]);
    } else {
      assert rs[lo..hi] == [];
    }
  }

  lemma {:induction false} JoinSlices(s: seq<byte>, a: nat, b: nat, c: nat, x: seq<byte>, y: seq<byte>)
    requires a <= b <= c <= |s| && s[a..b] == x && s[b..c] == y
    ensures s[a..c] == x + y
  {
  }

  lemma {:induction false} PackSnoc(rs: seq<seq<byte>>, lo: nat, hi: nat)
    requires lo < hi <= |rs|
    ensures Pack(rs[lo..hi]) == Pack(rs[lo..hi - 1]) + rs[hi - 1]
  {
    assert rs[lo..hi][..hi - 1 - lo] == rs[lo..hi - 1];
  }

  // ----- the graph object

  /** Unsigned 64-bit subtraction. */
  function Sub64(a: nat, b: nat): (r: nat)
    requires a < UINT64 && b < UINT64
    ensures b <= a ==> r == a - b
    ensures a < b ==> r == UINT64 + a - b
  {
    if b <= a then a - b else UINT64 + a - b
  }

  function Min(a: nat, b: nat): (m: nat) { if a <= b then a else b }

  /** Nodes [lo, hi) and edges [elo, ehi) of a graph, with its own index entries. */
  ghost function Part(g: Graph, lo: nat, hi: nat, elo: nat, ehi: nat): (p: Graph)
    requires lo <= hi <= |g.index| && elo <= ehi <= |g.dsts| == |g.data|
    ensures Storable(g) ==> Storable(p)
  {
    Graph(g.version, g.index[lo..hi], g.dsts[elo..ehi], g.sizeofEdge, g.data[elo..ehi])
  }

  class FileGraph {
    var graphVersion: nat
    var sizeofEdge: nat
    var numNodes: nat
    var numEdges: nat
    var nodeOffset: nat
    var edgeOffset: nat
    var outIdx: Ptr
    var outs: Ptr
    var edgeData: Option<Ptr>

    constructor ()
    {
      graphVersion, sizeofEdge, numNodes, numEdges, nodeOffset, edgeOffset := 0, 0, 0, 0, 0, 0;
      outIdx, outs, edgeData := Ptr([], 0), Ptr([], 0), None;
    }

    /** The object shows the nodes and edges of a graph, counted from the given offsets. */
    ghost predicate ShowsFrom(g: Graph, nodeOff: nat, edgeOff: nat)
      reads this
    {
      && graphVersion == g.version && sizeofEdge == g.sizeofEdge && nodeOffset == nodeOff && edgeOffset == edgeOff
      && numNodes == |g.index| && numEdges == |g.dsts|
      && HoldsAt(outIdx, Pack(Words(g.index, 8))) && HoldsAt(outs, Dsts(g))
    }

    /** And their edge data. */
    ghost predicate HasData(g: Graph)
      reads this
    {
      edgeData.Some? && HoldsAt(edgeData.value, Pack(g.data))
    }

    /** The object shows nodes [lo, hi) and edges [elo, ehi) of a graph. */
    ghost predicate Shows(g: Graph, lo: nat, hi: nat, elo: nat, ehi: nat)
      reads this
    {
      && lo <= hi <= |g.index| && elo <= ehi <= |g.dsts| == |g.data|
      && ShowsFrom(Part(g, lo, hi, elo, ehi), lo, elo)
    }

    /** And their edge data. */
    ghost predicate ShowsData(g: Graph, elo: nat, ehi: nat)
      reads this
    {
      elo <= ehi <= |g.data| && edgeData.Some? && HoldsAt(edgeData.value, Pack(g.data[elo..ehi]))
    }

    /** Points the object into an image in memory; a length limit of zero means none. */
    method FromMem(m: seq<byte>, nodeOff: nat, edgeOff: nat, lenlimit: nat) returns (ok: bool)
      requires |m| >= 32
      modifies this
      ensures ok <==> FromLe(m[..8]) == 1 || FromLe(m[..8]) == 2
      ensures graphVersion == FromLe(m[..8])
      ensures ok ==> sizeofEdge == FromLe(m[8..16]) && numNodes == FromLe(m[16..24]) && numEdges == FromLe(m[24..32])
      ensures ok ==> nodeOffset == nodeOff && edgeOffset == edgeOff
      ensures ok ==> outIdx == Ptr(m, 32) && outs == Ptr(m, 32 + 8 * numNodes)
      ensures ok ==>
                var base := Base(graphVersion, numNodes, numEdges);
                edgeData == if lenlimit == 0 || lenlimit > numEdges + base then Some(Ptr(m, base)) else None
    {
      graphVersion := FromLe(m[..8]);
      if graphVersion != 1 && graphVersion != 2 { return false; }
      sizeofEdge := FromLe(m[8..16]);
      numNodes := FromLe(m[16..24]);
      numEdges := FromLe(m[24..32]);
      nodeOffset := nodeOff;
      edgeOffset := edgeOff;
      var fptr := 32;
      outIdx := Ptr(m, fptr);
      fptr := fptr + 8 * numNodes;
      outs := Ptr(m, fptr);
      fptr := fptr + (if graphVersion == 1 then 4 else 8) * (numEdges + numEdges % 2);
      edgeData := if lenlimit == 0 || lenlimit > numEdges + fptr then Some(Ptr(m, fptr)) else None;
      ok := true;
    }

    /** The same where the header is known to be that of a graph. */
    method FromHeader(m: seq<byte>, nodeOff: nat, edgeOff: nat, lenlimit: nat, ghost g: Graph)
      requires Storable(g) && HoldsAt(Ptr(m, 0), Header(g))
      modifies this
      ensures graphVersion == g.version && sizeofEdge == g.sizeofEdge && numNodes == |g.index| && numEdges == |g.dsts|
      ensures nodeOffset == nodeOff && edgeOffset == edgeOff
      ensures outIdx == Ptr(m, 32) && outs == Ptr(m, 32 + 8 * |g.index|)
      ensures var base := Base(g.version, |g.index|, |g.dsts|);
              edgeData == if lenlimit == 0 || lenlimit > |g.dsts| + base then Some(Ptr(m, base)) else None
    {
      HeaderWords(g, m);
      var ok := FromMem(m, nodeOff, edgeOff, lenlimit);
    }

    /** Reads an image in memory without a limit: everything it holds is found. */
    method FromImage(m: seq<byte>, nodeOff: nat, edgeOff: nat, ghost g: Graph)
      requires Storable(g) && FrontLaidOut(m, g)
      modifies this
      ensures ShowsFrom(g, nodeOff, edgeOff)
      ensures LaidOut(m, g) ==> HasData(g)
    {
      FromHeader(m, nodeOff, edgeOff, 0, g);
    }

    /** Writes the arrays as an image and reads it in place: the graph comes back, with its edge data
        where rawBlockSize counts the whole image. */
    method FromArrays(a: Arrays, data: Option<Ptr>, version: nat, width: nat, nodeOff: nat, edgeOff: nat, ghost g: Graph)
      returns (ok: bool)
      requires Storable(g) && Given(a, g) && DataGiven(data, g) && version == g.version && width == g.sizeofEdge
      modifies this
      ensures ok <==> Fits(version, |g.dsts|, width, data)
      ensures ok ==> ShowsFrom(g, nodeOff, edgeOff)
      ensures ok && Counted(version, |g.dsts|) ==> HasData(g)
    {
      var m := WriteImage(a, data, version, width, g);
      if m.None? { return false; }
      ghost var s := m.value[..];
      FrontParts(g, s[|Front(g)|..]);
      assert Front(g) + s[|Front(g)|..] == s;
      ImageParts(g);
      FromImage(m.value[..], nodeOff, edgeOff, g);
      ok := true;
    }

    /** The copy constructor: a copy of a part shows the same nodes and edges of the whole graph under
        the same numbers, and the same edge data where its own image is counted in full. */
    method CopyOf(o: FileGraph, ghost g: Graph, ghost lo: nat, ghost hi: nat, ghost elo: nat, ghost ehi: nat)
      returns (ok: bool)
      requires o != this && Storable(g) && o.Shows(g, lo, hi, elo, ehi)
      requires o.edgeData.Some? ==> o.ShowsData(g, elo, ehi)
      modifies this
      ensures ok <==> Fits(g.version, ehi - elo, g.sizeofEdge, o.edgeData)
      ensures ok ==> Shows(g, lo, hi, elo, ehi)
      ensures ok && o.edgeData.Some? && Counted(g.version, ehi - elo) ==> ShowsData(g, elo, ehi)
    {
      ghost var part := Part(g, lo, hi, elo, ehi);
      ghost var copied := if o.edgeData.Some? then part else part.(data := Blank(ehi - elo, g.sizeofEdge));
      ok := FromArrays(Converted(o.outIdx, o.numNodes, o.outs, o.numEdges), o.edgeData, o.graphVersion, o.sizeofEdge,
                       o.nodeOffset, o.edgeOffset, copied);
      assert Dsts(copied) == Dsts(part);
    }

    /** Maps a file and reads it with its length as the limit. The limit counts one byte an edge, so
        edge data is found exactly when it is larger than that. */
    method FromFile(file: seq<byte>, ghost g: Graph)
      requires Storable(g) && LaidOut(file, g)
      modifies this
      ensures Shows(g, 0, |g.index|, 0, |g.dsts|)
      ensures edgeData.Some? <==> |g.dsts| > 0 && g.sizeofEdge > 1
      ensures edgeData.Some? ==> ShowsData(g, 0, |g.dsts|)
    {
      WholeSlices(g);
      assert Dsts(Part(g, 0, |g.index|, 0, |g.dsts|)) == Dsts(g);
      DataLength(g);
      FromHeader(file, 0, 0, |file|, g);
    }

    /** Maps the header, then the parts of index, destinations and edge data of a range of nodes and
        a range of edges. It fails only where an empty part would start at a page boundary. */
    method PartFromFile(file: seq<byte>, page: nat, lo: nat, hi: nat, elo: nat, ehi: nat, ghost g: Graph)
      returns (ok: bool)
      requires Storable(g) && LaidOut(file, g) && page > 0
      requires lo <= hi <= |g.index| && elo <= ehi <= |g.dsts|
      modifies this
      ensures ok <==> Mappable(page, g.version, lo, hi, elo, ehi, |g.index|, |g.dsts|, g.sizeofEdge)
      ensures ok ==> Shows(g, lo, hi, elo, ehi) && (edgeData.Some? <==> g.sizeofEdge > 0)
      ensures ok && g.sizeofEdge > 0 && Counted(g.version, |g.dsts|) ==> ShowsData(g, elo, ehi)
    {
      ReadFront(file, lo, elo, g);
      var parts := MapParts(file, page, graphVersion, numNodes, numEdges, sizeofEdge, lo, hi, elo, ehi, g);
      if parts.None? { return false; }
      Adopt(parts.value, lo, hi, elo, ehi, g);
      ok := true;
    }

    /** Reads the metadata of the whole graph from a mapping of the header alone. */
    method ReadFront(file: seq<byte>, lo: nat, elo: nat, ghost g: Graph)
      requires Storable(g) && HoldsAt(Ptr(file, 0), Header(g))
      modifies this
      ensures graphVersion == g.version && sizeofEdge == g.sizeofEdge && numNodes == |g.index| && numEdges == |g.dsts|
      ensures nodeOffset == lo && edgeOffset == elo
    {
      FrontHolds(file, Header(g));
      FromHeader(file[..32], lo, elo, 0, g);
    }

    /** Points the object at the parts and adjusts the counts. */
    method Adopt(parts: Parts, lo: nat, hi: nat, elo: nat, ehi: nat, ghost g: Graph)
      requires lo <= hi <= |g.index| && elo <= ehi <= |g.dsts| == |g.data|
      requires graphVersion == g.version && sizeofEdge == g.sizeofEdge && nodeOffset == lo && edgeOffset == elo
      requires HoldsAt(parts.idx, Pack(Words(g.index[lo..hi], 8)))
      requires HoldsAt(parts.dst, Pack(Words(g.dsts[elo..ehi], DstSize(g.version))))
      modifies this
      ensures Shows(g, lo, hi, elo, ehi) && edgeData == parts.data
    {
      outIdx, outs, edgeData := parts.idx, parts.dst, parts.data;
      numNodes, numEdges := hi - lo, ehi - elo;
    }

    function EdgeBegin(n: nat): (idx: nat)
      reads this
      requires edgeOffset + numEdges < UINT64
      requires n > nodeOffset ==> Readable(outIdx, n - 1 - nodeOffset, 8) && Read(outIdx, n - 1 - nodeOffset, 8) < UINT64
    {
      if n > nodeOffset then Sub64(Min(Read(outIdx, n - 1 - nodeOffset, 8), edgeOffset + numEdges), edgeOffset) else 0
    }

    function EdgeEnd(n: nat): (idx: nat)
      reads this
      requires edgeOffset + numEdges < UINT64
      requires n >= nodeOffset ==> Readable(outIdx, n - nodeOffset, 8) && Read(outIdx, n - nodeOffset, 8) < UINT64
    {
      if n >= nodeOffset then Sub64(Min(Read(outIdx, n - nodeOffset, 8), edgeOffset + numEdges), edgeOffset) else 0
    }

    /** The destination an edge iterator stands for; None is the abort on an unknown version. */
    function GetEdgeDst(it: nat): (r: Option<nat>)
      reads this
      requires graphVersion == 1 ==> Readable(outs, it, 4)
      requires graphVersion == 2 ==> Readable(outs, it, 8)
    {
      if graphVersion == 1 then Some(Read(outs, it, 4))
      else if graphVersion == 2 then Some(Read(outs, it, 8)) else None
    }

    function GetEdgeData(it: nat): (r: seq<byte>)
      reads this
      requires edgeData.Some? && Readable(edgeData.value, it, sizeofEdge)
    {
      var p := edgeData.value;
      p.mem[p.off + sizeofEdge * it..p.off + sizeofEdge * it + sizeofEdge]
    }
  }

  lemma {:induction false} WholeSlices(g: Graph)
    requires |g.data| == |g.dsts|
    ensures g.index[0..|g.index|] == g.index && g.dsts[0..|g.dsts|] == g.dsts && g.data[0..|g.dsts|] == g.data
  {
  }

  lemma {:induction false} LimitCounts(e: nat, w: nat)
    ensures Mul(e, w) > e <==> e > 0 && w > 1
  {
    MulIsProduct(e, w);
    if w > 1 { assert e * w == e + e * (w - 1); MulBounds(w - 1, e); assert e * (w - 1) == (w - 1) * e; }
  }

  // ----- mapping parts of a file

  /** A mapping starts at a page boundary and has at least one byte; bs is what the file holds. */
  method LoadFromOffset(file: seq<byte>, page: nat, offset: nat, length: nat, ghost bs: seq<byte>) returns (r: Option<Ptr>)
    requires page > 0 && length == |bs| && HoldsAt(Ptr(file, offset), bs)
    ensures r.Some? <==> offset % page != 0 || length > 0
    ensures r.Some? ==> HoldsAt(r.value, bs)
  {
    var alignment := offset % page;
    var aligned := offset - alignment;
    if length + alignment == 0 { return None; }
    var mapped := file[aligned..aligned + (length + alignment)];
    r := Some(Ptr(mapped, alignment));
    SubSlice(file, aligned, offset + length, alignment, alignment + length);
  }

  /** Where a part looks for its edge data. */
  function PartAt(version: nat, n: nat, e: nat, elo: nat, w: nat): (at: nat)
  {
    RawBlockSize(version, n, e, 0) + Mul(elo, w)
  }

  /** A range of records at a place can be mapped. */
  predicate Maps(page: nat, at: nat, lo: nat, hi: nat)
    requires page > 0
  {
    lo < hi || at % page != 0
  }

  /** No part is both empty and at a page boundary. */
  predicate Mappable(page: nat, version: nat, lo: nat, hi: nat, elo: nat, ehi: nat, n: nat, e: nat, w: nat)
    requires page > 0
  {
    && Maps(page, 32 + 8 * lo, lo, hi)
    && Maps(page, 32 + 8 * n + Mul(elo, DstSize(version)), elo, ehi)
    && (w > 0 ==> Maps(page, PartAt(version, n, e, elo, w), elo, ehi))
  }

  lemma {:induction false} NotEmpty(k: nat, w: nat)
    requires w > 0
    ensures Mul(k, w) > 0 <==> k > 0
  {
  }

  /** A run of records within a section. */
  lemma {:induction false} SectionPart(file: seq<byte>, at: nat, rs: seq<seq<byte>>, w: nat, lo: nat, hi: nat)
    requires HoldsAt(Ptr(file, at), Pack(rs)) && Uniform(rs, w) && lo <= hi <= |rs|
    ensures HoldsAt(Ptr(file, at + Mul(lo, w)), Pack(rs[lo..hi])) && |Pack(rs[lo..hi])| == Mul(hi - lo, w)
  {
    PackSlice(rs, w, lo, hi);
    PackLength(rs[lo..hi], w);
    MulAdd(lo, hi - lo, w);
    SubSlice(file, at, at + |Pack(rs)|, Mul(lo, w), Mul(hi, w));
  }

  lemma {:induction false} WordsPart(file: seq<byte>, at: nat, vs: seq<nat>, w: nat, lo: nat, hi: nat)
    requires HoldsAt(Ptr(file, at), Pack(Words(vs, w))) && lo <= hi <= |vs|
    ensures HoldsAt(Ptr(file, at + Mul(lo, w)), Pack(Words(vs[lo..hi], w)))
    ensures |Pack(Words(vs[lo..hi], w))| == Mul(hi - lo, w)
  {
    SectionPart(file, at, Words(vs, w), w, lo, hi);
    assert Words(vs, w)[lo..hi] == Words(vs[lo..hi], w);
  }

  /** The part of the index for the nodes from lo to hi. */
  method MapIndex(file: seq<byte>, page: nat, lo: nat, hi: nat, ghost index: seq<nat>) returns (p: Option<Ptr>)
    requires page > 0 && HoldsAt(Ptr(file, 32), Pack(Words(index, 8))) && lo <= hi <= |index|
    ensures p.Some? <==> Maps(page, 32 + 8 * lo, lo, hi)
    ensures p.Some? ==> HoldsAt(p.value, Pack(Words(index[lo..hi], 8)))
  {
    WordsPart(file, 32, index, 8, lo, hi);
    Product(8, lo);
    Product(8, hi - lo);
    p := LoadFromOffset(file, page, 32 + 8 * lo, 8 * (hi - lo), Pack(Words(index[lo..hi], 8)));
  }

  /** The part of the destinations for the edges from elo to ehi. */
  method MapOuts(file: seq<byte>, page: nat, version: nat, numNodes: nat, elo: nat, ehi: nat, ghost dsts: seq<nat>)
    returns (p: Option<Ptr>)
    requires page > 0 && HoldsAt(Ptr(file, 32 + 8 * numNodes), Pack(Words(dsts, DstSize(version)))) && elo <= ehi <= |dsts|
    ensures p.Some? <==> Maps(page, 32 + 8 * numNodes + Mul(elo, DstSize(version)), elo, ehi)
    ensures p.Some? ==> HoldsAt(p.value, Pack(Words(dsts[elo..ehi], DstSize(version))))
  {
    var w := DstSize(version);
    WordsPart(file, 32 + 8 * numNodes, dsts, w, elo, ehi);
    Product(w, elo);
    Product(w, ehi - elo);
    NotEmpty(ehi - elo, w);
    p := LoadFromOffset(file, page, 32 + 8 * numNodes + w * elo, w * (ehi - elo), Pack(Words(dsts[elo..ehi], w)));
  }

  /** What the file holds where a part looks for its edge data. */
  ghost function DataPart(file: seq<byte>, version: nat, n: nat, e: nat, w: nat, elo: nat, ehi: nat): (bs: seq<byte>)
    requires elo <= ehi && PartAt(version, n, e, elo, w) + Mul(ehi - elo, w) <= |file|
  {
    file[PartAt(version, n, e, elo, w)..PartAt(version, n, e, elo, w) + Mul(ehi - elo, w)]
  }

  lemma {:induction false} DataPartInside(file: seq<byte>, g: Graph, elo: nat, ehi: nat)
    requires Storable(g) && LaidOut(file, g) && elo <= ehi <= |g.dsts|
    ensures PartAt(g.version, |g.index|, |g.dsts|, elo, g.sizeofEdge) + Mul(ehi - elo, g.sizeofEdge) <= |file|
  {
    SectionLengths(g);
    SizeSplits(g.version, |g.index|, |g.dsts|, 0);
    SizeSplits(g.version, |g.index|, |g.dsts|, g.sizeofEdge);
    MulAdd(elo, ehi - elo, g.sizeofEdge);
    MulMonotone(ehi, |g.dsts|, g.sizeofEdge);
  }

  /** Where rawBlockSize counts the padding, that is its edge data. */
  lemma {:induction false} DataPartIsData(file: seq<byte>, g: Graph, elo: nat, ehi: nat)
    requires Storable(g) && LaidOut(file, g) && elo <= ehi <= |g.dsts| && Counted(g.version, |g.dsts|)
    requires PartAt(g.version, |g.index|, |g.dsts|, elo, g.sizeofEdge) + Mul(ehi - elo, g.sizeofEdge) <= |file|
    ensures DataPart(file, g.version, |g.index|, |g.dsts|, g.sizeofEdge, elo, ehi) == Pack(g.data[elo..ehi])
  {
    SizeSplits(g.version, |g.index|, |g.dsts|, 0);
    MulIsProduct(|g.dsts|, 0);
    SectionPart(file, Base(g.version, |g.index|, |g.dsts|), g.data, g.sizeofEdge, elo, ehi);
  }

  /** The part of the edge data for the edges from elo to ehi. */
  method MapData(file: seq<byte>, page: nat, version: nat, numNodes: nat, numEdges: nat, sizeofEdge: nat, elo: nat, ehi: nat)
    returns (p: Option<Ptr>)
    requires page > 0 && sizeofEdge > 0 && elo <= ehi
    requires PartAt(version, numNodes, numEdges, elo, sizeofEdge) + Mul(ehi - elo, sizeofEdge) <= |file|
    ensures p.Some? <==> Maps(page, PartAt(version, numNodes, numEdges, elo, sizeofEdge), elo, ehi)
    ensures p.Some? ==> HoldsAt(p.value, DataPart(file, version, numNodes, numEdges, sizeofEdge, elo, ehi))
  {
    Product(sizeofEdge, elo);
    MulIsProduct(ehi - elo, sizeofEdge);
    NotEmpty(ehi - elo, sizeofEdge);
    p := LoadFromOffset(file, page, RawBlockSize(version, numNodes, numEdges, 0) + sizeofEdge * elo,
                        (ehi - elo) * sizeofEdge, DataPart(file, version, numNodes, numEdges, sizeofEdge, elo, ehi));
  }

  /** That part is the data of the edges where rawBlockSize counts the padding. */
  method MapDataOf(file: seq<byte>, page: nat, version: nat, numNodes: nat, numEdges: nat, sizeofEdge: nat,
                   elo: nat, ehi: nat, ghost g: Graph)
    returns (p: Option<Ptr>)
    requires page > 0 && sizeofEdge > 0 && Sized(g, version, numNodes, numEdges, sizeofEdge)
    requires LaidOut(file, g) && elo <= ehi <= numEdges
    ensures p.Some? <==> Maps(page, PartAt(version, numNodes, numEdges, elo, sizeofEdge), elo, ehi)
    ensures p.Some? && Counted(version, numEdges) ==> HoldsAt(p.value, Pack(g.data[elo..ehi]))
  {
    DataPartInside(file, g, elo, ehi);
    p := MapData(file, page, version, numNodes, numEdges, sizeofEdge, elo, ehi);
    if Counted(version, numEdges) { DataPartIsData(file, g, elo, ehi); }
  }

  datatype Parts = Parts(idx: Ptr, dst: Ptr, data: Option<Ptr>)

  /** The index and the destinations of a range of nodes and a range of edges. */
  method MapArrays(file: seq<byte>, page: nat, version: nat, numNodes: nat, lo: nat, hi: nat, elo: nat, ehi: nat, ghost g: Graph)
    returns (r: Option<(Ptr, Ptr)>)
    requires page > 0 && lo <= hi <= |g.index| == numNodes && elo <= ehi <= |g.dsts|
    requires FrontLaidOut(file, g) && version == g.version
    ensures r.Some? <==> Maps(page, 32 + 8 * lo, lo, hi) && Maps(page, 32 + 8 * numNodes + Mul(elo, DstSize(version)), elo, ehi)
    ensures r.Some? ==> HoldsAt(r.value.0, Pack(Words(g.index[lo..hi], 8)))
    ensures r.Some? ==> HoldsAt(r.value.1, Pack(Words(g.dsts[elo..ehi], DstSize(version))))
  {
    var idx := MapIndex(file, page, lo, hi, g.index);
    if idx.None? { return None; }
    var dst := MapOuts(file, page, version, numNodes, elo, ehi, g.dsts);
    if dst.None? { return None; }
    r := Some((idx.value, dst.value));
  }

  /** All parts, edge data only if there is any. */
  method MapParts(file: seq<byte>, page: nat, version: nat, numNodes: nat, numEdges: nat, sizeofEdge: nat,
                  lo: nat, hi: nat, elo: nat, ehi: nat, ghost g: Graph)
    returns (r: Option<Parts>)
    requires page > 0 && lo <= hi <= numNodes && elo <= ehi <= numEdges
    requires Sized(g, version, numNodes, numEdges, sizeofEdge) && LaidOut(file, g)
    ensures r.Some? <==> Mappable(page, version, lo, hi, elo, ehi, numNodes, numEdges, sizeofEdge)
    ensures r.Some? ==> HoldsAt(r.value.idx, Pack(Words(g.index[lo..hi], 8)))
    ensures r.Some? ==> HoldsAt(r.value.dst, Pack(Words(g.dsts[elo..ehi], DstSize(version))))
    ensures r.Some? ==> (r.value.data.Some? <==> sizeofEdge > 0)
    ensures r.Some? && sizeofEdge > 0 && Counted(version, numEdges) ==> HoldsAt(r.value.data.value, Pack(g.data[elo..ehi]))
  {
    var arrays := MapArrays(file, page, version, numNodes, lo, hi, elo, ehi, g);
    if arrays.None? { return None; }
    var data := None;
    if sizeofEdge != 0 {
      data := MapDataOf(file, page, version, numNodes, numEdges, sizeofEdge, elo, ehi, g);
      if data.None? { return None; }
    }
    r := Some(Parts(arrays.value.0, arrays.value.1, data));
  }

  lemma {:induction false} Product(w: nat, k: nat)
    ensures w * k == Mul(k, w)
  {
    MulIsProduct(k, w);
    assert w * k == k * w;
  }

  /** What the header words of an image say. */
  lemma {:induction false} HeaderWords(g: Graph, m: seq<byte>)
    requires Storable(g) && HoldsAt(Ptr(m, 0), Header(g))
    ensures FromLe(m[..8]) == g.version && FromLe(m[8..16]) == g.sizeofEdge
    ensures FromLe(m[16..24]) == |g.index| && FromLe(m[24..32]) == |g.dsts|
  {
    var vs := HeaderVals(g.version, g.sizeofEdge, |g.index|, |g.dsts|);
    Word64At(Ptr(m, 0), vs, 0);
    Word64At(Ptr(m, 0), vs, 1);
    Word64At(Ptr(m, 0), vs, 2);
    Word64At(Ptr(m, 0), vs, 3);
  }

  /** The first 32 bytes alone hold the header too. */
  lemma {:induction false} FrontHolds(file: seq<byte>, h: seq<byte>)
    requires HoldsAt(Ptr(file, 0), h) && |h| == 32
    ensures |file| >= 32 && HoldsAt(Ptr(file[..32], 0), h)
  {
    assert file[..32][0..32] == file[0..32];
  }

  lemma {:induction false} DataLength(g: Graph)
    requires Storable(g)
    ensures |Pack(g.data)| > |g.dsts| <==> |g.dsts| > 0 && g.sizeofEdge > 1
  {
    PackLength(g.data, g.sizeofEdge);
    LimitCounts(|g.dsts|, g.sizeofEdge);
  }

  // ----- what the length limit finds

  /** fromFile keeps the edge data of an image exactly when a record is larger than one byte. */
  lemma {:induction false} LimitFindsData(g: Graph)
    requires Storable(g)
    ensures |Image(g)| > |g.dsts| + Base(g.version, |g.index|, |g.dsts|) <==> |g.dsts| > 0 && g.sizeofEdge > 1
  {
    ImageParts(g);
    DataLength(g);
  }

  /** One edge with one byte of data: the image holds it, the limit of its own length drops it. */
  lemma {:induction false} OneByteDataIsDropped()
    ensures var g := Graph(1, [1], [0], 1, [[7]]);
            Storable(g) && |Pack(g.data)| == 1 && |Image(g)| <= |g.dsts| + Base(1, |g.index|, |g.dsts|)
  {
    var g := Graph(1, [1], [0], 1, [[7]]);
    PackLength(g.data, 1);
    LimitFindsData(g);
  }

  // ----- what a part finds

  /** A graph of zeros whose edge data is all ones. */
  function Marked(version: nat, n: nat, e: nat, w: nat): (g: Graph)
  {
    Graph(version, seq(n, _ => 0), seq(e, _ => 0), w, seq(e, _ => seq(w, _ => 1)))
  }

  /** In version 2 with an odd number of edges a part starts to read in the padding. */
  lemma {:induction false} PartReadsPadding(n: nat, e: nat, w: nat)
    requires n < UINT64 && 0 < e < UINT64 && 0 < w < UINT64 && e % 2 != 0
    ensures var g := Marked(2, n, e, w);
            Sized(g, 2, n, e, w) && LaidOut(Image(g), g) && !HoldsAt(Ptr(Image(g), RawBlockSize(2, n, e, 0)), Pack(g.data))
  {
    var g, raw := Marked(2, n, e, w), RawBlockSize(2, n, e, 0);
    ImageParts(g);
    SectionLengths(g);
    SizeSplits(2, n, e, 0);
    MulIsProduct(e, 0);
    PackAt(g.data, w, 0);
    assert raw == |Front(g)| && Image(g)[raw] == 0;
    assert Pack(g.data)[0] == Pack(g.data)[0..w][0] == 1;
    FirstByte(Ptr(Image(g), raw), Pack(g.data));
  }

  lemma {:induction false} FirstByte(p: Ptr, bs: seq<byte>)
    requires |bs| > 0
    ensures HoldsAt(p, bs) ==> p.off < |p.mem| && p.mem[p.off] == bs[0]
  {
    if HoldsAt(p, bs) { assert p.mem[p.off] == p.mem[p.off..p.off + |bs|][0]; }
  }

  /** partFromFile finds the edge data of every image of given sizes if and only if rawBlockSize
      counts the padding: in version 1, or for an even number of edges. */
  lemma {:induction false} PartsFindData(version: nat, n: nat, e: nat, w: nat)
    requires version == 1 || version == 2
    requires n < UINT64 && 0 < e < UINT64 && 0 < w < UINT64
    ensures (forall g, file :: Sized(g, version, n, e, w) && LaidOut(file, g) ==>
               HoldsAt(Ptr(file, RawBlockSize(version, n, e, 0)), Pack(g.data)))
            <==> Counted(version, e)
  {
    SizeSplits(version, n, e, 0);
    MulIsProduct(e, 0);
    if !Counted(version, e) { PartReadsPadding(n, e, w); }
  }

  // ----- what is read

  /** Index entries grow and end at the number of edges. */
  ghost predicate WellFormed(g: Graph)
  {
    && Storable(g)
    && (forall u, v :: 0 <= u < v < |g.index| ==> g.index[u] <= g.index[v])
    && (forall v :: 0 <= v < |g.index| ==> g.index[v] <= |g.dsts|)
  }

  /** The first edge of node v. */
  function First(g: Graph, v: nat): (e: nat)
    requires v <= |g.index|
  {
    if v == 0 then 0 else g.index[v - 1]
  }

  lemma {:induction false} IndexEntry(f: FileGraph, g: Graph, lo: nat, hi: nat, elo: nat, ehi: nat, v: nat)
    requires Storable(g) && f.Shows(g, lo, hi, elo, ehi) && lo <= v < hi
    ensures Readable(f.outIdx, v - lo, 8) && Read(f.outIdx, v - lo, 8) == g.index[v]
  {
    Word64At(f.outIdx, g.index[lo..hi], v - lo);
  }

  /** The edge range holds all edges of v; the first node of a part has no entry of its own to start
      from, so the range must start with it. */
  ghost predicate Covers(g: Graph, lo: nat, elo: nat, ehi: nat, v: nat)
    requires lo <= v < |g.index|
  {
    && (if v == lo then elo == First(g, v) else elo <= First(g, v))
    && First(g, v + 1) <= ehi
  }

  /** The edge iterators of a node of a part stand for its edges in the whole graph exactly when the
      edge range covers them; otherwise the clamp cuts or the subtraction wraps. */
  lemma {:induction false} IteratorsExact(f: FileGraph, g: Graph, lo: nat, hi: nat, elo: nat, ehi: nat, v: nat)
    requires WellFormed(g) && f.Shows(g, lo, hi, elo, ehi) && lo <= v < hi
    ensures Readable(f.outIdx, v - lo, 8) && Read(f.outIdx, v - lo, 8) < UINT64
    ensures v > lo ==> Readable(f.outIdx, v - 1 - lo, 8) && Read(f.outIdx, v - 1 - lo, 8) < UINT64
    ensures elo + f.EdgeBegin(v) == First(g, v) && elo + f.EdgeEnd(v) == First(g, v + 1) <==> Covers(g, lo, elo, ehi, v)
  {
    IndexEntry(f, g, lo, hi, elo, ehi, v);
    if v > lo { IndexEntry(f, g, lo, hi, elo, ehi, v - 1); }
  }

  /** Edge it of a part is edge elo + it of the graph: its destination. */
  lemma {:induction false} DestinationAt(f: FileGraph, g: Graph, lo: nat, hi: nat, elo: nat, ehi: nat, it: nat)
    requires Storable(g) && f.Shows(g, lo, hi, elo, ehi) && it < ehi - elo
    ensures Readable(f.outs, it, DstSize(g.version)) && f.GetEdgeDst(it) == Some(g.dsts[elo + it])
  {
    if g.version == 1 { Word32At(f.outs, g.dsts[elo..ehi], it); } else { Word64At(f.outs, g.dsts[elo..ehi], it); }
  }

  /** And its data. */
  lemma {:induction false} EdgeDataAt(f: FileGraph, g: Graph, lo: nat, hi: nat, elo: nat, ehi: nat, it: nat)
    requires Storable(g) && f.Shows(g, lo, hi, elo, ehi) && f.ShowsData(g, elo, ehi) && it < ehi - elo
    ensures Readable(f.edgeData.value, it, f.sizeofEdge) && f.GetEdgeData(it) == g.data[elo + it]
  {
    RecordAt(f.edgeData.value, g.data[elo..ehi], g.sizeofEdge, it);
  }

  /** Whatever part a node is read from, the whole graph or one whose edge range covers it, it has
      the same edges with the same destinations. */
  lemma {:induction false} SameAdjacency(f: FileGraph, g: Graph, lo: nat, hi: nat, elo: nat, ehi: nat, v: nat, k: nat)
    requires WellFormed(g) && f.Shows(g, lo, hi, elo, ehi) && lo <= v < hi && Covers(g, lo, elo, ehi, v)
    requires k < First(g, v + 1) - First(g, v)
    ensures Readable(f.outIdx, v - lo, 8) && Read(f.outIdx, v - lo, 8) < UINT64
    ensures v > lo ==> Readable(f.outIdx, v - 1 - lo, 8) && Read(f.outIdx, v - 1 - lo, 8) < UINT64
    ensures f.EdgeEnd(v) - f.EdgeBegin(v) == First(g, v + 1) - First(g, v)
    ensures Readable(f.outs, f.EdgeBegin(v) + k, DstSize(g.version))
    ensures f.GetEdgeDst(f.EdgeBegin(v) + k) == Some(g.dsts[First(g, v) + k])
  {
    IteratorsExact(f, g, lo, hi, elo, ehi, v);
    DestinationAt(f, g, lo, hi, elo, ehi, First(g, v) - elo + k);
  }

  /** And the same edge data. */
  lemma {:induction false} SameEdgeData(f: FileGraph, g: Graph, lo: nat, hi: nat, elo: nat, ehi: nat, v: nat, k: nat)
    requires WellFormed(g) && f.Shows(g, lo, hi, elo, ehi) && f.ShowsData(g, elo, ehi)
    requires lo <= v < hi && Covers(g, lo, elo, ehi, v) && k < First(g, v + 1) - First(g, v)
    ensures v > lo ==> Readable(f.outIdx, v - 1 - lo, 8) && Read(f.outIdx, v - 1 - lo, 8) < UINT64
    ensures Readable(f.edgeData.value, f.EdgeBegin(v) + k, f.sizeofEdge)
    ensures f.GetEdgeData(f.EdgeBegin(v) + k) == g.data[First(g, v) + k]
  {
    IteratorsExact(f, g, lo, hi, elo, ehi, v);
    EdgeDataAt(f, g, lo, hi, elo, ehi, First(g, v) - elo + k);
  }

  /** The node range with its matching edge range covers every node of it, and so does the whole. */
  lemma {:induction false} MatchingCovers(g: Graph, lo: nat, hi: nat, v: nat)
    requires WellFormed(g) && lo <= v < hi <= |g.index|
    ensures First(g, lo) <= First(g, hi) <= |g.dsts|
    ensures Covers(g, lo, First(g, lo), First(g, hi), v) && Covers(g, 0, 0, |g.dsts|, v)
  {
  }
}
