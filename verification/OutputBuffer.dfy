/** The bounded output ring: the newest `limit` bytes, absolute byte cursors, and a tail that is
    withheld until its character is complete. */
module OutputBuffer {
  import opened Utf8
  import opened Sequences

  datatype Ring = Ring(limit: nat, data: seq<byte>, base: nat, end: nat, pending: nat)

  function Empty(limit: nat): Ring { Ring(limit, [], 0, 0, 0) }

  /** The first position from x on that no continuation byte occupies. */
  function FirstBoundary(h: seq<byte>, x: nat): (y: nat)
    requires x <= |h|
    ensures x <= y <= |h|
    ensures forall i :: x <= i < y ==> Continuation(h[i])
    ensures y < |h| ==> !Continuation(h[y])
    decreases |h| - x
  {
    if x < |h| && Continuation(h[x]) then FirstBoundary(h, x + 1) else x
  }

  function Append(r: Ring, chunk: seq<byte>): Ring {
    if chunk == [] then r
    else
      var all := r.data + chunk;
      var cut := Cut(all, r.limit);
      Ring(r.limit, all[cut..], r.base + cut, r.end + |chunk|, Pending(all[cut..]))
  }

  /** How much of the ring's head goes: the excess, and then what is left of a character. */
  function Cut(all: seq<byte>, limit: nat): (c: nat)
    ensures c <= |all|
  {
    if |all| <= limit then 0 else FirstBoundary(all, |all| - limit)
  }

  lemma CutFits(all: seq<byte>, limit: nat)
    ensures |all| - Cut(all, limit) <= limit
  {
  }

  datatype Offset = Whole | At(cursor: int)

  datatype View = Shown(text: seq<Glyph>, next: nat, base: nat, reset: bool) | Refused

  /** The part of the ring a request asks for, in ring positions. */
  datatype Part = Beyond | Part(from: nat, to: nat, reset: bool)

  function Locate(r: Ring, offset: Offset, final: bool): (p: Part)
    requires r.pending <= |r.data|
    ensures p.Part? ==> p.from <= p.to <= |r.data|
  {
    var to := if final then |r.data| else |r.data| - r.pending;
    if offset.Whole? then Part(0, to, false)
    else if offset.cursor < r.base then Part(0, to, true)
    else if offset.cursor > r.base + to then Beyond
    else Part(offset.cursor - r.base, to, false)
  }

  function Show(data: seq<byte>, p: Part, base: nat): View
    requires p.Part? ==> p.from <= p.to <= |data|
  {
    if p.Beyond? || (p.from < p.to && Continuation(data[p.from])) then Refused
    else Shown(Decode(data[p.from..p.to]), base + p.to, base, p.reset)
  }

  function Snapshot(r: Ring, offset: Offset, final: bool): View
    requires r.pending <= |r.data|
  {
    Show(r.data, Locate(r, offset, final), r.base)
  }

  class Buffer {
    const limit: nat
    var data: seq<byte>
    var baseOffset: nat
    var endOffset: nat
    var pendingLen: nat

    ghost function Abs(): Ring
      reads this
    {
      Ring(limit, data, baseOffset, endOffset, pendingLen)
    }

    /** The withheld tail is what decoding the whole ring would leave undecided. */
    ghost predicate Valid()
      reads this
    {
      limit > 0 && pendingLen == Pending(data) && endOffset == baseOffset + |data| && |data| <= limit
    }

    constructor (limit: nat)
      requires limit > 0
      ensures Valid() && Abs() == Empty(limit)
    {
      this.limit := limit;
      data, baseOffset, endOffset, pendingLen := [], 0, 0, 0;
    }

    /** Delete the excess, then what is left of a character at the new head. */
    method TrimHead()
      requires limit > 0
      modifies `data, `baseOffset
      ensures data == old(data)[Cut(old(data), limit)..]
      ensures baseOffset == old(baseOffset) + Cut(old(data), limit)
    {
      if |data| <= limit { return; }
      var excess := |data| - limit;
      data := data[excess..];
      baseOffset := baseOffset + excess;
      ghost var cut := excess;
      while data != [] && Continuation(data[0])
        invariant excess <= cut <= |old(data)| && data == old(data)[cut..] && baseOffset == old(baseOffset) + cut
        invariant FirstBoundary(old(data), excess) == FirstBoundary(old(data), cut)
        decreases data
      {
        data := data[1..];
        baseOffset := baseOffset + 1;
        cut := cut + 1;
      }
    }

    method Extend(chunk: seq<byte>)
      requires Valid()
      modifies this
      ensures Valid() && Abs() == Append(old(Abs()), chunk)
    {
      if chunk == [] { return; }
      data := data + chunk;
      endOffset := endOffset + |chunk|;
      CutFits(data, limit);
      TrimHead();
      pendingLen := Pending(LastFour(data));
      TailDecides(data);
    }

    method Read(offset: Offset, final: bool) returns (v: View)
      requires Valid()
      ensures v == Snapshot(Abs(), offset, final)
      ensures var visible := |data| - if final then 0 else pendingLen;
              var stale := offset.At? && offset.cursor < baseOffset;
              if offset.At? && offset.cursor > baseOffset + visible && !stale then v == Refused
              else
                var from := if offset.At? && !stale then offset.cursor - baseOffset else 0;
                if from < visible && 0x80 <= data[from] <= 0xBF then v == Refused
                else v == Shown(Decode(data[from..visible]), baseOffset + visible, baseOffset, stale)
    {
      hide Decode, Pending, Scan;
      var visibleLen := if final then |data| else |data| - pendingLen;
      var visibleEnd := baseOffset + visibleLen;
      var reset := false;
      var start: int := baseOffset;
      if offset.At? {
        if offset.cursor < baseOffset {
          reset := true;
        } else if offset.cursor > visibleEnd {
          return Refused;
        } else {
          start := offset.cursor;
        }
      }
      var rel: nat := start - baseOffset;
      assert Locate(Abs(), offset, final) == Part(rel, visibleLen, reset);
      if rel < visibleLen && Continuation(data[rel]) {
        return Refused;
      }
      v := Shown(Decode(data[rel..visibleLen]), visibleEnd, baseOffset, reset);
    }
  }

  // ----- The ring depends on the history alone -----

  function Flatten(chunks: seq<seq<byte>>): seq<byte> {
    if chunks == [] then [] else Flatten(chunks[..|chunks| - 1]) + chunks[|chunks| - 1]
  }

  function Feed(limit: nat, chunks: seq<seq<byte>>): Ring {
    if chunks == [] then Empty(limit)
    else Append(Feed(limit, chunks[..|chunks| - 1]), chunks[|chunks| - 1])
  }

  /** The ring a history leaves: nothing cut while it fits; otherwise history from the first
      boundary at or after `limit` bytes before its end. */
  function Base(h: seq<byte>, limit: nat): nat { Cut(h, limit) }

  function RingOf(h: seq<byte>, limit: nat): Ring {
    Ring(limit, h[Base(h, limit)..], Base(h, limit), |h|, Pending(h[Base(h, limit)..]))
  }

  /** limit + 1 continuation bytes in a row, from position a. */
  predicate LongRun(h: seq<byte>, limit: nat, a: nat) {
    1 <= a && a + limit < |h| && forall i :: a <= i <= a + limit ==> Continuation(h[i])
  }

  ghost predicate NoLongRun(h: seq<byte>, limit: nat) {
    forall a :: !LongRun(h, limit, a)
  }

  lemma NoLongRunPrefix(h: seq<byte>, c: seq<byte>, limit: nat)
    requires NoLongRun(h + c, limit)
    ensures NoLongRun(h, limit)
  {
    forall a ensures !LongRun(h, limit, a) {
      assert !LongRun(h + c, limit, a);
    }
  }

  lemma AppendToRing(h: seq<byte>, c: seq<byte>, limit: nat)
    requires limit > 0 && NoLongRun(h + c, limit)
    ensures Append(RingOf(h, limit), c) == RingOf(h + c, limit)
  {
    hide Pending, Scan;
    if c == [] {
      assert h + c == h;
    } else {
      var b := Base(h, limit);
      assert h[b..] + c == (h + c)[b..];
      CutAgain(h, c, limit);
      DropDrop(h + c, b, Cut((h + c)[b..], limit));
    }
  }

  /** Cutting what was already cut once comes to the same as cutting the whole history. */
  lemma CutAgain(h: seq<byte>, c: seq<byte>, limit: nat)
    requires limit > 0 && NoLongRun(h + c, limit) && c != []
    ensures Base(h, limit) + Cut((h + c)[Base(h, limit)..], limit) == Base(h + c, limit)
  {
    hide Pending, Scan;
    var b := Base(h, limit);
    if |h + c| - b <= limit {
      if |h + c| > limit { BaseStays(h, c, limit); }
    } else {
      ShiftBoundary(h + c, b, |h + c| - b - limit);
    }
  }

  lemma {:induction false} ShiftBoundary(h: seq<byte>, b: nat, x: nat)
    requires b + x <= |h|
    ensures b + FirstBoundary(h[b..], x) == FirstBoundary(h, b + x)
    decreases |h| - x
  {
    if b + x < |h| && Continuation(h[b + x]) { ShiftBoundary(h, b, x + 1); }
  }

  lemma BoundaryIs(h: seq<byte>, x: nat, y: nat)
    requires x <= y <= |h|
    requires forall i :: x <= i < y ==> Continuation(h[i])
    requires y < |h| ==> !Continuation(h[y])
    ensures FirstBoundary(h, x) == y
  {
  }

  /** When nothing needs cutting, the old cut is where a fresh cut would be. */
  lemma BaseStays(h: seq<byte>, c: seq<byte>, limit: nat)
    requires limit > 0 && c != [] && NoLongRun(h + c, limit)
    requires |h + c| - Base(h, limit) <= limit < |h + c|
    ensures Base(h + c, limit) == Base(h, limit)
  {
    var b, x := Base(h, limit), |h + c| - limit;
    if b == |h| && Continuation((h + c)[b]) {
      assert LongRun(h + c, limit, |h| - limit);
      assert false;
    }
    BoundaryIs(h + c, x, b);
  }

  lemma {:induction false} ClosedForm(limit: nat, chunks: seq<seq<byte>>)
    requires limit > 0 && NoLongRun(Flatten(chunks), limit)
    ensures Feed(limit, chunks) == RingOf(Flatten(chunks), limit)
  {
    hide Pending, Scan;
    if chunks != [] {
      var rest, last := chunks[..|chunks| - 1], chunks[|chunks| - 1];
      NoLongRunPrefix(Flatten(rest), last, limit);
      ClosedForm(limit, rest);
      AppendToRing(Flatten(rest), last, limit);
    }
  }

  /** The exact condition for the closed form, over arbitrary bytes: however a history is cut
      into chunks, and at each point of it, the ring depends on the bytes alone, if and only if
      the history has no run of limit + 1 continuation bytes past its first byte. */
  lemma ChunkingIndependentIff(h: seq<byte>, limit: nat)
    requires limit > 0
    ensures NoLongRun(h, limit) <==>
            forall chunks :: Flatten(chunks) <= h ==> Feed(limit, chunks) == RingOf(Flatten(chunks), limit)
  {
    hide Pending, Scan;
    if NoLongRun(h, limit) {
      forall chunks | Flatten(chunks) <= h
        ensures Feed(limit, chunks) == RingOf(Flatten(chunks), limit)
      {
        var f := Flatten(chunks);
        assert f + h[|f|..] == h;
        NoLongRunPrefix(f, h[|f|..], limit);
        ClosedForm(limit, chunks);
      }
    } else {
      var a: nat :| LongRun(h, limit, a);
      var chunks := [h[..a + limit], [h[a + limit]]];
      SplitFeed(h, limit, a);
      assert Flatten(chunks) <= h && Feed(limit, chunks) != RingOf(Flatten(chunks), limit);
    }
  }

  /** A run too long leaves its last byte stranded at the head of the ring. */
  lemma SplitFeed(h: seq<byte>, limit: nat, a: nat)
    requires limit > 0 && LongRun(h, limit, a)
    ensures var chunks := [h[..a + limit], [h[a + limit]]];
            Flatten(chunks) == h[..a + limit + 1] && Feed(limit, chunks) != RingOf(Flatten(chunks), limit)
  {
    hide Pending, Scan;
    var first, last := h[..a + limit], [h[a + limit]];
    var chunks := [first, last];
    assert chunks[..1] == [first];
    FeedOne(limit, first);
    EmptiedByRun(first, limit, a);
    assert Feed(limit, chunks) == Append(Feed(limit, [first]), last);
    var whole := h[..a + limit + 1];
    assert Flatten(chunks) == whole;
    BoundaryIs(whole, a + 1, a + limit + 1);
    assert Base(whole, limit) == a + limit + 1;
    OneByteStays(Feed(limit, [first]), last);
  }

  lemma EmptiedByRun(first: seq<byte>, limit: nat, a: nat)
    requires limit > 0 && 1 <= a && |first| == a + limit && forall i :: a <= i < |first| ==> Continuation(first[i])
    ensures var r := Append(Empty(limit), first); r.data == [] && r.base == |first| && r.limit == limit
  {
    assert [] + first == first;
    BoundaryIs(first, a, a + limit);
  }

  lemma OneByteStays(r: Ring, last: seq<byte>)
    requires r.data == [] && |last| == 1 && r.limit > 0
    ensures Append(r, last).base == r.base
  {
    assert r.data + last == last;
  }

  lemma FeedOne(limit: nat, c: seq<byte>)
    ensures Flatten([c]) == c && Feed(limit, [c]) == Append(Empty(limit), c)
  {
    assert [c][..0] == [];
    assert [] + c == c;
  }

  /** Well-formed text never has four continuation bytes in a row. */
  lemma WellFormedHasNoLongRun(t: seq<byte>, n: nat, limit: nat)
    requires WellFormed(t) && n <= |t| && limit >= 3
    ensures NoLongRun(t[..n], limit)
  {
    forall a: nat ensures !LongRun(t[..n], limit, a) {
      if a + limit < n {
        AtMostThreeContinuations(t, a);
        var k :| a <= k < a + 4 && !Continuation(t[k]);
        assert t[..n][k] == t[k];
      }
    }
  }

  /** For well-formed text, at any point of its arrival and for any chunks: the closed form, and
      a ring that is at most three bytes short of what its limit allows. */
  lemma WellFormedClosedForm(t: seq<byte>, limit: nat, chunks: seq<seq<byte>>)
    requires WellFormed(t) && limit >= 3 && Flatten(chunks) <= t
    ensures Feed(limit, chunks) == RingOf(Flatten(chunks), limit)
    ensures var h := Flatten(chunks);
            && |h| - limit <= Base(h, limit)
            && |Feed(limit, chunks).data| >= if |h| <= limit - 3 then |h| else limit - 3
  {
    hide Pending, Scan;
    var h := Flatten(chunks);
    assert h == t[..|h|];
    WellFormedHasNoLongRun(t, |h|, limit);
    ClosedForm(limit, chunks);
    if |h| > limit {
      var x, y := |h| - limit, FirstBoundary(h, |h| - limit);
      if y > x + 3 {
        assert forall k :: x <= k < x + 4 ==> h[k] == t[k];
        AtMostThreeContinuations(t, x);
      }
    }
  }
}
