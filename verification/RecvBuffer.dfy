/** The receive buffer of the buffered network: a deque of byte fragments, each with the tag of
    its frame, from which length-prefixed messages are popped.

    The specification knows nothing of fragments: it is a parser on the stream of tagged bytes
    that have arrived and have not been consumed. */
module RecvBuffer {
  import opened Arith
  import opened Bytes
  import opened Wrappers

  /** NetworkIO::message, the host left out: a receive buffer belongs to one source host. */
  datatype Fragment = Fragment(tag: nat, data: seq<byte>)

  /** ~0U, the tag of an empty queue. */
  const NO_TAG: nat := UINT32 - 1

  // ----- streams of tagged bytes

  datatype TaggedByte = TaggedByte(tag: nat, b: byte)

  function Tagged(tag: nat, s: seq<byte>): (r: seq<TaggedByte>)
    ensures |r| == |s|
    ensures forall k :: 0 <= k < |s| ==> r[k] == TaggedByte(tag, s[k])
  {
    seq(|s|, k requires 0 <= k < |s| => TaggedByte(tag, s[k]))
  }

  function Untagged(s: seq<TaggedByte>): (r: seq<byte>)
    ensures |r| == |s|
    ensures forall k :: 0 <= k < |s| ==> r[k] == s[k].b
  {
    seq(|s|, k requires 0 <= k < |s| => s[k].b)
  }

  function Flatten(data: seq<Fragment>): (r: seq<TaggedByte>)
  {
    if data == [] then [] else Tagged(data[0].tag, data[0].data) + Flatten(data[1..])
  }

  lemma {:induction false} FlattenConcat(a: seq<Fragment>, b: seq<Fragment>)
    ensures Flatten(a + b) == Flatten(a) + Flatten(b)
  {
    if a == [] {
      assert a + b == b;
    } else {
      assert (a + b)[1..] == a[1..] + b;
      FlattenConcat(a[1..], b);
      ConcatAssoc(Tagged(a[0].tag, a[0].data), Flatten(a[1..]), Flatten(b));
    }
  }

  lemma {:induction false} ConcatAssoc<T>(a: seq<T>, b: seq<T>, c: seq<T>)
    ensures a + (b + c) == (a + b) + c
  {
  }

  /** The number of leading bytes that carry the tag. */
  function RunLength(s: seq<TaggedByte>, tag: nat): (n: nat)
    ensures n <= |s|
    ensures forall k :: 0 <= k < n ==> s[k].tag == tag
    ensures n < |s| ==> s[n].tag != tag
  {
    if s == [] || s[0].tag != tag then 0 else 1 + RunLength(s[1..], tag)
  }

  /** What popMsg promises, on the stream alone: when the leading run of the tag starts with a
      length that is neither 0 nor ~0 and holds that many bytes more, they are the message. */
  function ParseMsg(s: seq<TaggedByte>, tag: nat): (r: Option<seq<byte>>)
    ensures r.Some? ==> 0 < |r.value| && 4 + |r.value| <= RunLength(s, tag)
    ensures r.Some? ==> FromLe(Untagged(s[..4])) == |r.value|
    ensures r.Some? ==> r.value == Untagged(s[4..4 + |r.value|])
  {
    if RunLength(s, tag) < 4 then None else
    var len := FromLe(Untagged(s[..4]));
    if len == 0 || len == NO_TAG || RunLength(s, tag) < 4 + len then None
    else Some(Untagged(s[4..4 + len]))
  }

  // ----- lemmas about the stream of a deque

  /** The bytes that are left: those of the fragments without the consumed front. */
  function Rest(data: seq<Fragment>, frontOffset: nat): (r: seq<TaggedByte>)
    requires Offset(data, frontOffset)
  {
    Flatten(data)[frontOffset..]
  }

  /** frontOffset stays inside the front fragment. */
  predicate Offset(data: seq<Fragment>, frontOffset: nat)
    ensures Offset(data, frontOffset) ==> frontOffset <= |Flatten(data)|
  {
    if data == [] then frontOffset == 0 else frontOffset < |data[0].data|
  }

  predicate NonEmpty(data: seq<Fragment>)
  {
    forall k :: 0 <= k < |data| ==> data[k].data != []
  }

  lemma {:induction false} RestSplit(data: seq<Fragment>, frontOffset: nat)
    requires data != [] && Offset(data, frontOffset)
    ensures Rest(data, frontOffset) ==
            Tagged(data[0].tag, data[0].data[frontOffset..]) + Flatten(data[1..])
  {
  }

  lemma {:induction false} RunOfTagged(tag: nat, s: seq<byte>, t: seq<TaggedByte>)
    ensures RunLength(Tagged(tag, s) + t, tag) == |s| + RunLength(t, tag)
    decreases |s|
  {
    if s == [] {
      assert Tagged(tag, s) + t == t;
    } else {
      RunOfTagged(tag, s[1..], t);
      assert (Tagged(tag, s) + t)[1..] == Tagged(tag, s[1..]) + t;
    }
  }

  lemma {:induction false} FlattenSnoc(data: seq<Fragment>, i: nat)
    requires i < |data|
    ensures Flatten(data[..i + 1]) == Flatten(data[..i]) + Tagged(data[i].tag, data[i].data)
  {
    assert data[..i + 1] == data[..i] + [data[i]];
    FlattenConcat(data[..i], [data[i]]);
    assert Flatten([data[i]]) == Tagged(data[i].tag, data[i].data) + [];
  }

  lemma {:induction false} PrefixGrows(data: seq<Fragment>, i: nat)
    requires i < |data|
    ensures |Flatten(data[..i + 1])| == |Flatten(data[..i])| + |data[i].data| <= |Flatten(data)|
  {
    FlattenSnoc(data, i);
    assert data == data[..i + 1] + data[i + 1..];
    FlattenConcat(data[..i + 1], data[i + 1..]);
  }

  /** Byte k of fragment j, found in the stream. */
  lemma {:induction false} RestAt(data: seq<Fragment>, frontOffset: nat, j: nat, k: nat)
    requires Offset(data, frontOffset)
    requires j < |data| && k < |data[j].data| && frontOffset <= |Flatten(data[..j])| + k
    ensures |Flatten(data[..j])| + k - frontOffset < |Rest(data, frontOffset)|
    ensures Rest(data, frontOffset)[|Flatten(data[..j])| + k - frontOffset] ==
            TaggedByte(data[j].tag, data[j].data[k])
  {
    assert data == data[..j] + data[j..];
    FlattenConcat(data[..j], data[j..]);
    PrefixGrows(data, j);
    assert Flatten(data[j..])[k] == TaggedByte(data[j].tag, data[j].data[k]);
  }

  lemma {:induction false} RunPastPrefix(data: seq<Fragment>, i: nat, tag: nat)
    requires i <= |data| && forall k :: 0 <= k < i ==> data[k].tag == tag
    ensures RunLength(Flatten(data), tag) == |Flatten(data[..i])| + RunLength(Flatten(data[i..]), tag)
    decreases i
  {
    if i == 0 {
      assert data[i..] == data;
    } else {
      assert data[1..][i - 1..] == data[i..];
      assert data[..i][0] == data[0] && data[..i][1..] == data[1..][..i - 1];
      assert |Flatten(data[..i])| == |data[0].data| + |Flatten(data[1..][..i - 1])|;
      RunPastPrefix(data[1..], i - 1, tag);
      RunOfTagged(tag, data[0].data, Flatten(data[1..]));
    }
  }

  lemma {:induction false} RunOfDrop(s: seq<TaggedByte>, tag: nat, n: nat)
    requires n <= RunLength(s, tag)
    ensures RunLength(s[n..], tag) == RunLength(s, tag) - n
    decreases n
  {
    if n > 0 {
      RunOfDrop(s[1..], tag, n - 1);
      assert s[1..][n - 1..] == s[n..];
    } else {
      assert s[n..] == s;
    }
  }

  /** How far the leading run of a deque reaches, fragment by fragment. */
  lemma {:induction false} RunOfRest(data: seq<Fragment>, frontOffset: nat, tag: nat, i: nat)
    requires Offset(data, frontOffset) && NonEmpty(data)
    requires i <= |data| && forall k :: 0 <= k < i ==> data[k].tag == tag
    ensures i > 0 ==> RunLength(Rest(data, frontOffset), tag) >= |Flatten(data[..i])| - frontOffset
    ensures i > 0 && (i == |data| || data[i].tag != tag) ==>
            RunLength(Rest(data, frontOffset), tag) == |Flatten(data[..i])| - frontOffset
    ensures data == [] || data[0].tag != tag ==> RunLength(Rest(data, frontOffset), tag) == 0
  {
    if i > 0 {
      RunPastPrefix(data, i, tag);
      RunOfTagged(tag, data[0].data, Flatten(data[1..]));
      RunOfDrop(Flatten(data), tag, frontOffset);
      if i < |data| && data[i].tag != tag {
        assert data[i..][0] == data[i];
        assert Flatten(data[i..])[0] == TaggedByte(data[i].tag, data[i].data[0]);
      }
    } else if data != [] {
      assert Rest(data, frontOffset)[0] == TaggedByte(data[0].tag, data[0].data[frontOffset]);
    }
  }

  /** Drops the fragments a front offset has run past. */
  function Advance(data: seq<Fragment>, frontOffset: nat): (r: (seq<Fragment>, nat))
    decreases |data|
  {
    if frontOffset > 0 && data != [] && frontOffset >= |data[0].data| then
      Advance(data[1..], frontOffset - |data[0].data|)
    else (data, frontOffset)
  }

  /** Advancing consumes fragments but leaves the stream behind the offset as it is. */
  lemma {:induction false} AdvanceKeepsStream(data: seq<Fragment>, frontOffset: nat)
    requires NonEmpty(data) && frontOffset <= |Flatten(data)|
    ensures var (d, o) := Advance(data, frontOffset);
            NonEmpty(d) && |d| <= |data| && Offset(d, o) && Rest(d, o) == Flatten(data)[frontOffset..]
    decreases |data|
  {
    if frontOffset > 0 && frontOffset >= |data[0].data| {
      AdvanceKeepsStream(data[1..], frontOffset - |data[0].data|);
      assert Flatten(data) == Tagged(data[0].tag, data[0].data) + Flatten(data[1..]);
    }
  }

  lemma {:induction false} AdvanceTwice(data: seq<Fragment>, a: nat, b: nat)
    requires a <= |Flatten(data)|
    ensures var (d, o) := Advance(data, a); Advance(d, o + b) == Advance(data, a + b)
    decreases |data|
  {
    if a > 0 && a >= |data[0].data| { AdvanceTwice(data[1..], a - |data[0].data|, b); }
  }

  lemma {:induction false} SliceTwice<T>(s: seq<T>, a: nat, b: nat)
    requires a + b <= |s|
    ensures s[a..][..b] == s[a..a + b] && s[a..][b..] == s[a + b..]
  {
  }

  /** -a + b in size_t arithmetic. */
  lemma {:induction false} ModReduce(a: nat, b: nat)
    requires a <= b < UINT64
    ensures ((UINT64 - a) % UINT64 + b) % UINT64 == b - a
  {
  }

  // ----- the class of the source

  /** A shared std::atomic<size_t>. */
  class Counter {
    var value: int
    constructor (v: int) ensures value == v { value := v; }
  }

  class RecvBuffer {
    var data: seq<Fragment>
    var frontOffset: nat
    var dataPresent: nat

    /** The fragments fit the address space, none is empty, the offset lies inside the front one
        and the present tag is that of the front. */
    ghost predicate Valid()
      reads this
    {
      && NonEmpty(data)
      && Offset(data, frontOffset)
      && |Flatten(data)| < UINT64
      && dataPresent == (if data == [] then NO_TAG else data[0].tag)
    }

    ghost function Stream(): (s: seq<TaggedByte>)
      requires Valid()
      reads this
    {
      Rest(data, frontOffset)
    }

    constructor ()
      ensures Valid() && Stream() == [] && data == []
    {
      data, frontOffset, dataPresent := [], 0, NO_TAG;
    }

    /** The total is a size_t: it starts at -frontOffset modulo 2^64, and the first fragment
        brings it back because frontOffset lies inside that fragment. */
    method SizeAtLeast(n: nat, tag: nat) returns (b: bool)
      requires Valid() && n > 0
      ensures b <==> RunLength(Stream(), tag) >= n
    {
      var tot := (UINT64 - frontOffset) % UINT64;
      var i := 0;
      assert Flatten(data[..0]) == [];
      while i < |data|
        invariant 0 <= i <= |data|
        invariant forall k :: 0 <= k < i ==> data[k].tag == tag
        invariant if i == 0 then tot == (UINT64 - frontOffset) % UINT64
                  else tot == |Flatten(data[..i])| - frontOffset < n
      {
        RunOfRest(data, frontOffset, tag, i);
        if data[i].tag == tag {
          PrefixGrows(data, i);
          ModReduce(frontOffset, |data[0].data|);
          tot := (tot + |data[i].data|) % UINT64;
          assert tot == |Flatten(data[..i + 1])| - frontOffset;
          RunOfRest(data, frontOffset, tag, i + 1);
          if tot >= n { return true; }
        } else {
          return false;
        }
        i := i + 1;
      }
      RunOfRest(data, frontOffset, tag, i);
      return false;
    }

    /** Copies the next n bytes, first from the front fragment, then from the later ones. */
    method CopyOut(n: nat) returns (out: seq<byte>)
      requires Valid() && n <= |Stream()| && data != []
      ensures out == Untagged(Stream()[..n])
    {
      var left, k := n, frontOffset;
      out := [];
      assert Flatten(data[..0]) == [];
      PrefixGrows(data, 0);
      while k < |data[0].data| && left > 0
        invariant frontOffset <= k <= |data[0].data| && |out| + left == n && |out| == k - frontOffset
        invariant forall x :: 0 <= x < |out| ==> out[x] == Stream()[x].b
      {
        RestAt(data, frontOffset, 0, k);
        out, k, left := out + [data[0].data[k]], k + 1, left - 1;
      }
      var j := 1;
      while j < |data| && left > 0
        invariant 1 <= j <= |data| && |out| + left == n
        invariant left > 0 ==> |out| == |Flatten(data[..j])| - frontOffset
        invariant forall x :: 0 <= x < |out| ==> out[x] == Stream()[x].b
      {
        ghost var base := |out|;
        k := 0;
        while k < |data[j].data| && left > 0
          invariant 0 <= k <= |data[j].data| && |out| + left == n && |out| == base + k
          invariant forall x :: 0 <= x < |out| ==> out[x] == Stream()[x].b
        {
          RestAt(data, frontOffset, j, k);
          out, k, left := out + [data[j].data[k]], k + 1, left - 1;
        }
        PrefixGrows(data, j);
        j := j + 1;
      }
      assert data[..|data|] == data;
    }

    /** Moves the front vector out when the len bytes asked for are its last ones. */
    method PopVec(len: nat, inflightRecvs: Counter) returns (r: Option<seq<byte>>)
      requires Valid() && data != [] && len > 0
      modifies this, inflightRecvs
      ensures Valid()
      ensures r.Some? <==> |old(data)[0].data| == old(frontOffset) + len
      ensures r.Some? ==> r.value == old(data)[0].data && len <= |r.value| && len <= |old(Stream())|
      ensures r.Some? ==> r.value[|r.value| - len..] == Untagged(old(Stream())[..len])
      ensures r.Some? ==> Stream() == old(Stream())[len..]
      ensures r.Some? ==> (data, frontOffset) == Advance(old(data), old(frontOffset) + len)
      ensures r.None? ==> data == old(data) && frontOffset == old(frontOffset)
      ensures inflightRecvs.value == old(inflightRecvs.value) - (|old(data)| - |data|)
    {
      if |data[0].data| == frontOffset + len {
        RestSplit(data, frontOffset);
        r := Some(data[0].data);
        data := data[1..];
        inflightRecvs.value := inflightRecvs.value - 1;
        frontOffset := 0;
        dataPresent := if |data| > 0 then data[0].tag else NO_TAG;
      } else {
        r := None;
      }
    }

    /** Consumes n bytes and drops the fragments that are used up. */
    method Erase(n: nat, inflightRecvs: Counter)
      requires Valid() && n <= |Stream()|
      modifies this, inflightRecvs
      ensures Valid()
      ensures Stream() == old(Stream())[n..]
      ensures (data, frontOffset) == Advance(old(data), old(frontOffset) + n)
      ensures inflightRecvs.value == old(inflightRecvs.value) - (|old(data)| - |data|)
    {
      frontOffset := frontOffset + n;
      ghost var was := Flatten(data)[frontOffset..];
      assert was == old(Stream())[n..];
      while frontOffset > 0 && frontOffset >= |data[0].data|
        invariant NonEmpty(data) && frontOffset <= |Flatten(data)| < UINT64
        invariant frontOffset > 0 ==> data != []
        invariant Flatten(data)[frontOffset..] == was
        invariant Advance(data, frontOffset) == Advance(old(data), old(frontOffset) + n)
        invariant inflightRecvs.value == old(inflightRecvs.value) - (|old(data)| - |data|)
        decreases |data|
      {
        assert Flatten(data) == Tagged(data[0].tag, data[0].data) + Flatten(data[1..]);
        frontOffset := frontOffset - |data[0].data|;
        data := data[1..];
        inflightRecvs.value := inflightRecvs.value - 1;
      }
      dataPresent := if |data| > 0 then data[0].tag else NO_TAG;
    }

    method GetLenFromFront(tag: nat) returns (len: nat)
      requires Valid()
      ensures len == if RunLength(Stream(), tag) >= 4 then FromLe(Untagged(Stream()[..4])) else NO_TAG
    {
      var enough := SizeAtLeast(4, tag);
      if enough {
        var c := CopyOut(4);
        len := FromLe(c);
      } else {
        len := NO_TAG;
      }
    }

    /** The message body: the rest of the front vector when it ends there, a copy otherwise. */
    method TakeBody(len: nat, inflightRecvs: Counter) returns (buf: seq<byte>)
      requires Valid() && 0 < len <= |Stream()|
      modifies this, inflightRecvs
      ensures Valid()
      ensures buf == Untagged(old(Stream())[..len])
      ensures Stream() == old(Stream())[len..]
      ensures (data, frontOffset) == Advance(old(data), old(frontOffset) + len)
      ensures inflightRecvs.value == old(inflightRecvs.value) - (|old(data)| - |data|)
    {
      var v := PopVec(len, inflightRecvs);
      if v.Some? {
        var start := |v.value| - len;
        return v.value[start..];
      }
      buf := CopyOut(len);
      Erase(len, inflightRecvs);
    }

    /** The checks popMsg makes before it touches the buffer: the length of a whole message of the
        tag at the front, 0 when there is none. */
    method WholeMsg(tag: nat) returns (len: nat)
      requires Valid()
      ensures len == match ParseMsg(Stream(), tag) case Some(m) => |m| case None => 0
    {
      len := GetLenFromFront(tag);
      if len == NO_TAG || len == 0 { return 0; }
      var enough := SizeAtLeast(4 + len, tag);
      if !enough { return 0; }
    }

    /** Drops the length word, then takes the body. */
    method TakeMsg(len: nat, inflightRecvs: Counter) returns (buf: seq<byte>)
      requires Valid() && 0 < len && 4 + len <= |Stream()|
      modifies this, inflightRecvs
      ensures Valid()
      ensures buf == Untagged(old(Stream())[4..4 + len])
      ensures Stream() == old(Stream())[4 + len..]
      ensures (data, frontOffset) == Advance(old(data), old(frontOffset) + 4 + len)
      ensures inflightRecvs.value == old(inflightRecvs.value) - (|old(data)| - |data|)
    {
      SliceTwice(Stream(), 4, len);
      AdvanceTwice(data, frontOffset + 4, len);
      Erase(4, inflightRecvs);
      buf := TakeBody(len, inflightRecvs);
    }

    /** popMsg refines the stream parser, on the moved-vector path and on the copying path, however
        the stream is cut into fragments. A failed pop changes nothing. */
    method PopMsg(tag: nat, inflightRecvs: Counter) returns (r: Option<seq<byte>>)
      requires Valid()
      modifies this, inflightRecvs
      ensures Valid()
      ensures r == ParseMsg(old(Stream()), tag)
      ensures Stream() == if r.Some? then old(Stream())[4 + |r.value|..] else old(Stream())
      ensures (data, frontOffset) ==
              if r.None? then (old(data), old(frontOffset))
              else Advance(old(data), old(frontOffset) + 4 + |r.value|)
      ensures inflightRecvs.value == old(inflightRecvs.value) - (|old(data)| - |data|)
    {
      var len := WholeMsg(tag);
      if len == 0 { return None; }
      var buf := TakeMsg(len, inflightRecvs);
      return Some(buf);
    }

    /** The worker adds only frames that have bytes. */
    method Add(m: Fragment)
      requires Valid() && m.data != [] && |Flatten(data)| + |m.data| < UINT64
      modifies this
      ensures Valid()
      ensures Stream() == old(Stream()) + Tagged(m.tag, m.data)
      ensures data == old(data) + [m] && frontOffset == old(frontOffset)
    {
      FlattenConcat(data, [m]);
      assert Flatten([m]) == Tagged(m.tag, m.data) + [];
      if |data| == 0 { dataPresent := m.tag; }
      data := data + [m];
    }

    method HasData(tag: nat) returns (b: bool)
      requires Valid()
      ensures b <==> dataPresent == tag
      ensures ParseMsg(Stream(), tag).Some? ==> b
    {
      RunOfRest(data, frontOffset, tag, 0);
      b := dataPresent == tag;
    }
  }
}
