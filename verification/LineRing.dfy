/** The log follower's line ring: numbered lines, bounded in count and in text size. */
module LineRing {

  const MAX_LINE := 8 * 1024

  datatype Line = Line(ts: int, text: string)

  datatype Ring = Ring(maxLines: nat, maxBytes: nat, buf: seq<Line>, bytes: int, count: nat)

  function Empty(maxLines: nat, maxBytes: nat): Ring { Ring(maxLines, maxBytes, [], 0, 0) }

  function Clip(line: string): string { if |line| <= MAX_LINE then line else line[..MAX_LINE] }

  /** Appending to a deque of bounded length: a full one loses its oldest element. */
  function Bounded(buf: seq<Line>, maxLines: nat): seq<Line> {
    if |buf| <= maxLines then buf else buf[|buf| - maxLines..]
  }

  /** How many lines the byte bound evicts from the front. */
  function Evictions(buf: seq<Line>, bytes: int, maxBytes: nat): (k: nat)
    ensures k <= |buf|
    ensures buf != [] ==> k < |buf|
  {
    if bytes > maxBytes && |buf| > 1 then 1 + Evictions(buf[1..], bytes - |buf[0].text|, maxBytes) else 0
  }

  function Size(buf: seq<Line>): nat {
    if buf == [] then 0 else |buf[0].text| + Size(buf[1..])
  }

  function Push(r: Ring, ts: int, line: string): Ring {
    var text := Clip(line);
    var buf := Bounded(r.buf + [Line(ts, text)], r.maxLines);
    var bytes := r.bytes + |text|;
    var k := Evictions(buf, bytes, r.maxBytes);
    Ring(r.maxLines, r.maxBytes, buf[k..], bytes - Size(buf[..k]), r.count + 1)
  }

  /** The lines after number `after`, numbered. */
  function Since(r: Ring, after: int): seq<(int, Line)> {
    var first := r.count - |r.buf| + 1;
    var skip := if after < first then 0 else if after - first + 1 > |r.buf| then |r.buf| else after - first + 1;
    seq(|r.buf| - skip, i requires 0 <= i < |r.buf| - skip => (first + skip + i, r.buf[skip + i]))
  }

  class LineBuffer {
    const maxLines: nat
    const maxBytes: nat
    var buf: seq<Line>
    var bytes: int
    var count: nat

    function Abs(): Ring
      reads this
    {
      Ring(maxLines, maxBytes, buf, bytes, count)
    }

    constructor (maxLines: nat, maxBytes: nat)
      ensures Abs() == Empty(maxLines, maxBytes)
    {
      this.maxLines, this.maxBytes := maxLines, maxBytes;
      buf, bytes, count := [], 0, 0;
    }

    method Append(ts: int, line: string)
      modifies this
      ensures Abs() == Push(old(Abs()), ts, line)
    {
      var text := Clip(line);
      buf := Bounded(buf + [Line(ts, text)], maxLines);
      bytes := bytes + |text|;
      count := count + 1;
      EvictOverflow();
    }

    method EvictOverflow()
      modifies this`buf, this`bytes
      ensures var k := Evictions(old(buf), old(bytes), maxBytes);
              buf == old(buf)[k..] && bytes == old(bytes) - Size(old(buf)[..k])
    {
      ghost var full, total, k := buf, bytes, 0;
      while bytes > maxBytes && |buf| > 1
        invariant k <= |full| && buf == full[k..] && bytes == total - Size(full[..k])
        invariant Evictions(full, total, maxBytes) == k + Evictions(buf, bytes, maxBytes)
        decreases |buf|
      {
        SizeNext(full, k);
        DropNext(full, k);
        bytes := bytes - |buf[0].text|;
        buf := buf[1..];
        k := k + 1;
      }
    }

    method LinesSince(after: int) returns (cur: nat, lines: seq<(int, Line)>)
      ensures cur == count && lines == Since(Abs(), after)
    {
      cur, lines := count, [];
      var start := cur - |buf| + 1;
      ghost var skip := |buf| - |Since(Abs(), after)|;
      for i := 0 to |buf|
        invariant |lines| == if i <= skip then 0 else i - skip
        invariant forall j :: 0 <= j < |lines| ==> lines[j] == (start + skip + j, buf[skip + j])
      {
        if start + i > after {
          lines := lines + [(start + i, buf[i])];
        }
      }
    }
  }

  lemma DropNext(buf: seq<Line>, k: nat)
    requires k < |buf|
    ensures buf[k..][1..] == buf[k + 1..] && buf[k..][0] == buf[k]
  {
  }

  lemma {:induction false} SizeNext(buf: seq<Line>, k: nat)
    requires k < |buf|
    ensures Size(buf[..k + 1]) == Size(buf[..k]) + |buf[k].text|
  {
    if k > 0 {
      assert buf[..k + 1][1..] == buf[1..][..k] && buf[..k][1..] == buf[1..][..k - 1];
      SizeNext(buf[1..], k - 1);
    }
  }

  lemma {:induction false} SizeSplit(buf: seq<Line>, k: nat)
    requires k <= |buf|
    ensures Size(buf) == Size(buf[..k]) + Size(buf[k..])
  {
    if k == 0 {
      assert buf[0..] == buf;
    } else {
      assert buf[..k][1..] == buf[1..][..k - 1] && buf[1..][k - 1..] == buf[k..];
      SizeSplit(buf[1..], k - 1);
    }
  }

  // ----- The ring is a numbered suffix of everything pushed -----

  function Pushes(r: Ring, lines: seq<Line>): Ring {
    if lines == [] then r
    else Push(Pushes(r, lines[..|lines| - 1]), lines[|lines| - 1].ts, lines[|lines| - 1].text)
  }

  /** Everything pushed, each line cut to its maximum. */
  function History(lines: seq<Line>): (h: seq<Line>)
    ensures |h| == |lines|
    ensures forall i :: 0 <= i < |h| ==> h[i] == Line(lines[i].ts, Clip(lines[i].text))
  {
    seq(|lines|, i requires 0 <= i < |lines| => Line(lines[i].ts, Clip(lines[i].text)))
  }

  predicate Suffix(buf: seq<Line>, h: seq<Line>) {
    |buf| <= |h| && buf == h[|h| - |buf|..]
  }

  lemma SuffixDrop(buf: seq<Line>, h: seq<Line>, k: nat)
    requires Suffix(buf, h) && k <= |buf|
    ensures Suffix(buf[k..], h)
  {
  }

  lemma SuffixPush(buf: seq<Line>, h: seq<Line>, l: Line)
    requires Suffix(buf, h)
    ensures Suffix(buf + [l], h + [l])
  {
  }

  ghost predicate Holds(r: Ring, h: seq<Line>) {
    && r.count == |h|
    && Suffix(r.buf, h)
    && |r.buf| <= r.maxLines
    && Size(r.buf) <= r.bytes
    && (r.bytes <= r.maxBytes || |r.buf| <= 1)
  }

  lemma PushHolds(r: Ring, h: seq<Line>, ts: int, line: string)
    requires Holds(r, h)
    ensures Holds(Push(r, ts, line), h + [Line(ts, Clip(line))])
    ensures Push(r, ts, line).count - |Push(r, ts, line).buf| >= r.count - |r.buf|
  {
    ClipTwice(line);
    hide Size, Evictions, Suffix, Bounded, Clip;
    PushKeepsSuffix(r, h, Line(ts, Clip(line)));
    PushKeepsSize(r, Line(ts, Clip(line)));
  }

  lemma ClipTwice(line: string)
    ensures |Clip(line)| <= MAX_LINE && Clip(Clip(line)) == Clip(line)
  {}

  /** A line of at most 8192 characters is kept whole; a longer one keeps its first 8192. */
  lemma ClipKeepsFront(line: string)
    ensures Clip(line) <= line && |Clip(line)| == if |line| <= 8192 then |line| else 8192
  {}

  /** Lines are evicted only while the counter is over the bound. */
  lemma {:induction false} EvictionsAreNeeded(buf: seq<Line>, bytes: int, maxBytes: nat, j: nat)
    requires j < Evictions(buf, bytes, maxBytes)
    ensures bytes - Size(buf[..j]) > maxBytes && |buf[j..]| > 1
  {
    if j > 0 {
      assert buf[..j][1..] == buf[1..][..j - 1] && buf[..j][0] == buf[0] && buf[1..][j - 1..] == buf[j..];
      EvictionsAreNeeded(buf[1..], bytes - |buf[0].text|, maxBytes, j - 1);
    }
  }

  /** A push into a ring with room for the line, in count and by its counter, loses nothing; without
      room in count the oldest line goes, and then lines go only while the counter is over the bound. */
  lemma PushLosesOnlyExcess(r: Ring, ts: int, line: string)
    requires |r.buf| <= r.maxLines && r.maxLines > 0
    ensures var text := if |line| <= 8192 then line else line[..8192];
            var all := if |r.buf| < r.maxLines then r.buf + [Line(ts, text)] else r.buf[1..] + [Line(ts, text)];
            var r' := Push(r, ts, line);
            && r'.buf != [] && |r'.buf| <= |all| && r'.buf == all[|all| - |r'.buf|..]
            && r'.bytes == r.bytes + |text| - Size(all[..|all| - |r'.buf|])
            && (r'.bytes <= r.maxBytes || |r'.buf| == 1)
            && forall j: nat :: j < |all| - |r'.buf| ==> r.bytes + |text| - Size(all[..j]) > r.maxBytes
  {
    ClipKeepsFront(line);
    var l := Line(ts, Clip(line));
    var all := Bounded(r.buf + [l], r.maxLines);
    assert all == if |r.buf| < r.maxLines then r.buf + [l] else r.buf[1..] + [l];
    var bytes := r.bytes + |l.text|;
    var k := Evictions(all, bytes, r.maxBytes);
    EvictionsStop(all, bytes, r.maxBytes);
    forall j: nat | j < k ensures bytes - Size(all[..j]) > r.maxBytes {
      EvictionsAreNeeded(all, bytes, r.maxBytes, j);
    }
  }

  lemma PushKeepsSuffix(r: Ring, h: seq<Line>, l: Line)
    requires Suffix(r.buf, h) && |l.text| <= MAX_LINE
    ensures var buf := Push(r, l.ts, l.text).buf;
            Suffix(buf, h + [l]) && |buf| <= r.maxLines && |buf| <= |r.buf| + 1
  {
    hide Size, Evictions;
    var all := r.buf + [l];
    var buf := Bounded(all, r.maxLines);
    SuffixPush(r.buf, h, l);
    if |all| > r.maxLines { SuffixDrop(all, h + [l], |all| - r.maxLines); }
    SuffixDrop(buf, h + [l], Evictions(buf, r.bytes + |l.text|, r.maxBytes));
  }

  lemma PushKeepsSize(r: Ring, l: Line)
    requires Size(r.buf) <= r.bytes && |l.text| <= MAX_LINE
    ensures var r' := Push(r, l.ts, l.text);
            Size(r'.buf) <= r'.bytes && (r'.bytes <= r'.maxBytes || |r'.buf| <= 1)
  {
    hide Size, Evictions;
    BoundedSize(r.buf, l, r.maxLines);
    EvictionSize(Bounded(r.buf + [l], r.maxLines), r.bytes + |l.text|, r.maxBytes);
  }

  /** What the deque drops stays counted; what is evicted does not. */
  lemma BoundedSize(buf: seq<Line>, l: Line, maxLines: nat)
    ensures Size(Bounded(buf + [l], maxLines)) <= Size(buf) + |l.text|
  {
    var all := buf + [l];
    assert all[..|buf|] == buf && all[|buf|..] == [l];
    SizeSplit(all, |buf|);
    if |all| > maxLines { SizeSplit(all, |all| - maxLines); }
  }

  lemma EvictionSize(buf: seq<Line>, bytes: int, maxBytes: nat)
    ensures var k := Evictions(buf, bytes, maxBytes);
            && bytes - Size(buf[..k]) - Size(buf[k..]) == bytes - Size(buf)
            && (bytes - Size(buf[..k]) <= maxBytes || |buf[k..]| <= 1)
  {
    SizeSplit(buf, Evictions(buf, bytes, maxBytes));
    EvictionsStop(buf, bytes, maxBytes);
  }

  lemma {:induction false} EvictionsStop(buf: seq<Line>, bytes: int, maxBytes: nat)
    ensures var k := Evictions(buf, bytes, maxBytes);
            bytes - Size(buf[..k]) <= maxBytes || |buf[k..]| <= 1
  {
    if bytes > maxBytes && |buf| > 1 {
      var rest := bytes - |buf[0].text|;
      var k := Evictions(buf[1..], rest, maxBytes);
      EvictionsStop(buf[1..], rest, maxBytes);
      assert buf[..k + 1][1..] == buf[1..][..k] && buf[1..][k..] == buf[k + 1..];
    }
  }

  lemma {:induction false} PushesHold(maxLines: nat, maxBytes: nat, lines: seq<Line>)
    ensures Holds(Pushes(Empty(maxLines, maxBytes), lines), History(lines))
    ensures Pushes(Empty(maxLines, maxBytes), lines).maxLines == maxLines
    ensures Pushes(Empty(maxLines, maxBytes), lines).maxBytes == maxBytes
  {
    if lines != [] {
      var n := |lines| - 1;
      PushesHold(maxLines, maxBytes, lines[..n]);
      PushHolds(Pushes(Empty(maxLines, maxBytes), lines[..n]), History(lines[..n]), lines[n].ts, lines[n].text);
      HistoryAppend(lines[..n], lines[n]);
      LastSplit(lines);
    }
  }

  lemma LastSplit(lines: seq<Line>)
    requires lines != []
    ensures lines[..|lines| - 1] + [lines[|lines| - 1]] == lines
  {
  }

  lemma HistoryAppend(lines: seq<Line>, l: Line)
    ensures History(lines + [l]) == History(lines) + [Line(l.ts, Clip(l.text))]
  {
  }

  /** The n-th line ever pushed carries number n, and a query returns exactly the retained lines
      numbered above the one asked about, in order. */
  lemma SinceIsExact(r: Ring, h: seq<Line>, after: int, n: int)
    requires Holds(r, h)
    ensures var lines := Since(r, after);
            && (forall i :: 0 <= i < |lines| ==> 1 <= lines[i].0 <= |h| && lines[i] == (lines[i].0, h[lines[i].0 - 1]))
            && (forall i, j :: 0 <= i < j < |lines| ==> lines[i].0 < lines[j].0)
            && (Saw(lines, n) <==> after < n <= |h| && |h| - |r.buf| < n)
  {
    hide Size;
    var lines := Since(r, after);
    var first := r.count - |r.buf| + 1;
    var skip := |r.buf| - |lines|;
    forall i | 0 <= i < |lines| ensures 1 <= lines[i].0 <= |h| && lines[i] == (lines[i].0, h[lines[i].0 - 1]) {
      assert lines[i] == (first + skip + i, r.buf[skip + i]);
    }
    if after < n <= |h| && |h| - |r.buf| < n {
      assert lines[n - first - skip].0 == n;
    }
  }

  /** With room for at least one line of the maximal length, the retained text stays within the
      byte bound. */
  lemma RetainedTextBounded(maxLines: nat, maxBytes: nat, lines: seq<Line>)
    requires maxBytes >= MAX_LINE
    ensures Size(Pushes(Empty(maxLines, maxBytes), lines).buf) <= maxBytes
  {
    PushesHold(maxLines, maxBytes, lines);
    var r := Pushes(Empty(maxLines, maxBytes), lines);
    if |r.buf| == 1 {
      assert r.buf[0] == History(lines)[|lines| - 1];
      assert r.buf[1..] == [];
    }
  }

  // ----- A reader that hands back the cursor it was given -----

  datatype Reader = Reader(ring: Ring, cursor: int, seen: seq<(int, Line)>)

  datatype Event = Write(line: Line) | Read

  function Step(x: Reader, e: Event): Reader {
    match e
    case Write(l) => x.(ring := Push(x.ring, l.ts, l.text))
    case Read => Reader(x.ring, x.ring.count, x.seen + Since(x.ring, x.cursor))
  }

  function Run(x: Reader, es: seq<Event>): Reader {
    if es == [] then x else Step(Run(x, es[..|es| - 1]), es[|es| - 1])
  }

  function Written(es: seq<Event>): seq<Line> {
    if es == [] then []
    else Written(es[..|es| - 1]) + if es[|es| - 1].Write? then [es[|es| - 1].line] else []
  }

  /** Seen lines are numbered, in order, each once; what is missing below the cursor is gone. */
  ghost predicate Delivered(x: Reader, h: seq<Line>) {
    && Holds(x.ring, h)
    && 0 <= x.cursor <= |h|
    && (forall i :: 0 <= i < |x.seen| ==> 1 <= x.seen[i].0 <= x.cursor && x.seen[i].1 == h[x.seen[i].0 - 1])
    && (forall i, j :: 0 <= i < j < |x.seen| ==> x.seen[i].0 < x.seen[j].0)
    && (forall n :: 1 <= n <= x.cursor && !Saw(x.seen, n) ==> n <= |h| - |x.ring.buf|)
  }

  predicate Saw(seen: seq<(int, Line)>, n: int) {
    exists i :: 0 <= i < |seen| && seen[i].0 == n
  }

  lemma WriteDelivered(x: Reader, h: seq<Line>, l: Line)
    requires Delivered(x, h)
    ensures Delivered(Step(x, Write(l)), h + [Line(l.ts, Clip(l.text))])
  {
    PushHolds(x.ring, h, l.ts, l.text);
    PushCounts(x.ring, l.ts, l.text);
    hide Push, Holds, Clip;
  }

  lemma PushCounts(r: Ring, ts: int, line: string)
    ensures var r' := Push(r, ts, line);
            r'.count == r.count + 1 && r'.maxLines == r.maxLines && r'.maxBytes == r.maxBytes
  {}

  lemma ReadDelivered(x: Reader, h: seq<Line>)
    requires Delivered(x, h)
    ensures Delivered(Step(x, Read), h)
  {
    hide Since, Size;
    var fetched := Since(x.ring, x.cursor);
    SinceIsExact(x.ring, h, x.cursor, 0);
    forall i | 0 <= i < |fetched| ensures x.cursor < fetched[i].0 {
      SinceIsExact(x.ring, h, x.cursor, fetched[i].0);
    }
    forall n | 1 <= n <= |h| && !Saw(x.seen + fetched, n) ensures n <= |h| - |x.ring.buf| {
      SinceIsExact(x.ring, h, x.cursor, n);
      SawEither(x.seen, fetched, n);
    }
  }

  lemma SawEither(a: seq<(int, Line)>, b: seq<(int, Line)>, n: int)
    ensures Saw(a + b, n) <==> Saw(a, n) || Saw(b, n)
  {
    if Saw(a, n) {
      var i :| 0 <= i < |a| && a[i].0 == n;
      assert (a + b)[i].0 == n;
    }
    if Saw(b, n) {
      var i :| 0 <= i < |b| && b[i].0 == n;
      assert (a + b)[|a| + i].0 == n;
    }
  }

  /** However writes and reads interleave. */
  lemma {:induction false} ReaderSeesInOrder(maxLines: nat, maxBytes: nat, es: seq<Event>)
    ensures Delivered(Run(Reader(Empty(maxLines, maxBytes), 0, []), es), History(Written(es)))
  {
    if es != [] {
      var n := |es| - 1;
      ReaderSeesInOrder(maxLines, maxBytes, es[..n]);
      var x := Run(Reader(Empty(maxLines, maxBytes), 0, []), es[..n]);
      var h := History(Written(es[..n]));
      match es[n] {
        case Write(l) =>
          WriteDelivered(x, h, l);
          HistoryAppend(Written(es[..n]), l);
        case Read =>
          ReadDelivered(x, h);
          assert Written(es) == Written(es[..n]);
      }
    }
  }

  // ----- The byte counter drifts -----

  /** What the counter exceeds the retained text by. */
  function Drift(r: Ring): int { r.bytes - Size(r.buf) }

  /** The text that a push into the ring loses by count: a full deque drops its oldest line (the
      new one itself, if it has no room at all). */
  function Dropped(r: Ring, l: Line): nat {
    if |r.buf| < r.maxLines then 0 else |(r.buf + [l])[0].text|
  }

  /** Exactly what a push adds to the drift, whether or not it evicts. */
  lemma DriftStep(r: Ring, ts: int, line: string)
    requires |r.buf| <= r.maxLines
    ensures Drift(Push(r, ts, line)) == Drift(r) + Dropped(r, Line(ts, Clip(line)))
  {
    hide Evictions;
    var l := Line(ts, Clip(line));
    var all := r.buf + [l];
    var buf := Bounded(all, r.maxLines);
    assert all[..|r.buf|] == r.buf && all[|r.buf|..] == [l];
    SizeSplit(all, |r.buf|);
    assert |all| > r.maxLines ==> buf == all[1..];
    EvictionSize(buf, r.bytes + |l.text|, r.maxBytes);
  }

  /** What the k-th push of a run lost by count. */
  function DroppedAt(maxLines: nat, maxBytes: nat, lines: seq<Line>, k: nat): nat
    requires k < |lines|
  {
    Dropped(Pushes(Empty(maxLines, maxBytes), lines[..k]), Line(lines[k].ts, Clip(lines[k].text)))
  }

  /** What each push of a run lost by count. */
  function Losses(maxLines: nat, maxBytes: nat, lines: seq<Line>): (r: seq<nat>)
    ensures |r| == |lines|
    ensures forall k :: 0 <= k < |r| ==> r[k] == DroppedAt(maxLines, maxBytes, lines, k)
  {
    seq(|lines|, k requires 0 <= k < |lines| => DroppedAt(maxLines, maxBytes, lines, k))
  }

  function Sum(xs: seq<nat>): nat {
    if xs == [] then 0 else Sum(xs[..|xs| - 1]) + xs[|xs| - 1]
  }

  lemma {:induction false} SumIsZero(xs: seq<nat>)
    ensures Sum(xs) == 0 <==> forall k :: 0 <= k < |xs| ==> xs[k] == 0
  {
    if xs != [] { SumIsZero(xs[..|xs| - 1]); }
  }

  lemma PushesNext(r: Ring, lines: seq<Line>, k: nat)
    requires k < |lines|
    ensures Pushes(r, lines[..k + 1]) == Push(Pushes(r, lines[..k]), lines[k].ts, lines[k].text)
  {
    assert lines[..k + 1][..k] == lines[..k];
  }

  /** The drift at each point of a run. */
  function Drifts(maxLines: nat, maxBytes: nat, lines: seq<Line>): (r: seq<int>)
    ensures |r| == |lines| + 1
    ensures forall k :: 0 <= k < |r| ==> r[k] == Drift(Pushes(Empty(maxLines, maxBytes), lines[..k]))
  {
    seq(|lines| + 1, k requires 0 <= k < |lines| + 1 => Drift(Pushes(Empty(maxLines, maxBytes), lines[..k])))
  }

  lemma {:induction false} Telescopes(totals: seq<int>, parts: seq<nat>, k: nat)
    requires k <= |parts| && |totals| == |parts| + 1 && totals[0] == 0
    requires forall i :: 0 <= i < |parts| ==> totals[i + 1] == totals[i] + parts[i]
    ensures totals[k] == Sum(parts[..k])
  {
    if k > 0 {
      Telescopes(totals, parts, k - 1);
      SumNext(parts, k - 1);
    }
  }

  /** At every point of every run the drift is the text lost by count. */
  lemma DriftIsDropped(maxLines: nat, maxBytes: nat, lines: seq<Line>, k: nat)
    requires k <= |lines|
    ensures Drifts(maxLines, maxBytes, lines)[k] == Sum(Losses(maxLines, maxBytes, lines)[..k])
  {
    var drifts, losses := Drifts(maxLines, maxBytes, lines), Losses(maxLines, maxBytes, lines);
    forall i | 0 <= i < |losses| ensures drifts[i + 1] == drifts[i] + losses[i] {
      DriftNext(maxLines, maxBytes, lines, i);
    }
    assert drifts[0] == 0 by { assert lines[..0] == []; }
    Telescopes(drifts, losses, k);
  }

  lemma DriftNext(maxLines: nat, maxBytes: nat, lines: seq<Line>, k: nat)
    requires k < |lines|
    ensures Drift(Pushes(Empty(maxLines, maxBytes), lines[..k + 1]))
         == Drift(Pushes(Empty(maxLines, maxBytes), lines[..k])) + DroppedAt(maxLines, maxBytes, lines, k)
  {
    PushesNext(Empty(maxLines, maxBytes), lines, k);
    PushesHold(maxLines, maxBytes, lines[..k]);
    DriftStep(Pushes(Empty(maxLines, maxBytes), lines[..k]), lines[k].ts, lines[k].text);
  }

  lemma SumNext(xs: seq<nat>, k: nat)
    requires k < |xs|
    ensures Sum(xs[..k + 1]) == Sum(xs[..k]) + xs[k]
  {
    assert xs[..k + 1][..k] == xs[..k];
  }

  /** The counter is the retained size exactly when no push met a ring that was full by count and
      whose oldest line had a text. */
  lemma CounterIsExactIff(maxLines: nat, maxBytes: nat, lines: seq<Line>)
    ensures var r := Pushes(Empty(maxLines, maxBytes), lines);
            var losses := Losses(maxLines, maxBytes, lines);
            r.bytes == Size(r.buf) <==> forall k :: 0 <= k < |losses| ==> losses[k] == 0
  {
    var losses := Losses(maxLines, maxBytes, lines);
    assert losses[..|losses|] == losses;
    DriftIsDropped(maxLines, maxBytes, lines, |lines|);
    assert lines[..|lines|] == lines;
    SumIsZero(losses);
  }

  /** With room for two lines the drift stays within the byte bound. */
  lemma {:induction false} DriftWithinBound(maxLines: nat, maxBytes: nat, lines: seq<Line>)
    requires maxLines >= 2
    ensures Drift(Pushes(Empty(maxLines, maxBytes), lines)) <= maxBytes
  {
    if lines != [] {
      var n := |lines| - 1;
      DriftWithinBound(maxLines, maxBytes, lines[..n]);
      PushesHold(maxLines, maxBytes, lines[..n]);
      DriftStaysWithin(Pushes(Empty(maxLines, maxBytes), lines[..n]), lines[n].ts, lines[n].text);
    }
  }

  lemma DriftStaysWithin(r: Ring, ts: int, line: string)
    requires r.maxLines >= 2 && |r.buf| <= r.maxLines && Drift(r) <= r.maxBytes
    requires r.bytes <= r.maxBytes || |r.buf| <= 1
    ensures Drift(Push(r, ts, line)) <= r.maxBytes
  {
    var l := Line(ts, Clip(line));
    DriftStep(r, ts, line);
    assert r.buf != [] ==> (r.buf + [l])[0] == r.buf[0];
  }

  // It does reach the bound: a run that fills the ring, and then pushes as many empty lines.

  lemma BoundedTwice(buf: seq<Line>, l: Line, maxLines: nat)
    ensures Bounded(Bounded(buf, maxLines) + [l], maxLines) == Bounded(buf + [l], maxLines)
  {
    if |buf| > maxLines {
      assert buf[|buf| - maxLines..] + [l] == (buf + [l])[|buf| - maxLines..];
    }
  }

  lemma SizeSnoc(buf: seq<Line>, l: Line)
    ensures Size(buf + [l]) == Size(buf) + |l.text|
  {
    assert (buf + [l])[..|buf|] == buf && (buf + [l])[|buf|..] == [l];
    SizeSplit(buf + [l], |buf|);
  }

  /** As long as everything pushed fits the byte bound, nothing is evicted and everything counted. */
  lemma {:induction false} NoEvictionYet(maxLines: nat, maxBytes: nat, lines: seq<Line>)
    requires Size(History(lines)) <= maxBytes
    ensures var r := Pushes(Empty(maxLines, maxBytes), lines);
            && r == Ring(maxLines, maxBytes, Bounded(History(lines), maxLines), Size(History(lines)), |lines|)
  {
    if lines == [] {
      assert History(lines) == [];
    } else {
      var n := |lines| - 1;
      var l := Line(lines[n].ts, Clip(lines[n].text));
      LastSplit(lines);
      HistoryAppend(lines[..n], lines[n]);
      SizeSnoc(History(lines[..n]), l);
      NoEvictionYet(maxLines, maxBytes, lines[..n]);
      BoundedTwice(History(lines[..n]), l, maxLines);
      var buf := Bounded(History(lines), maxLines);
      assert buf[0..] == buf && buf[..0] == [];
    }
  }

  function Repeat(n: nat, l: Line): seq<Line> { seq(n, _ => l) }

  lemma {:induction false} RepeatSize(n: nat, l: Line)
    ensures Size(Repeat(n, l)) == n * |l.text|
  {
    if n > 0 {
      RepeatSize(n - 1, l);
      assert Repeat(n, l)[1..] == Repeat(n - 1, l);
      assert n * |l.text| == |l.text| + (n - 1) * |l.text|;
    }
  }

  lemma DriftReachesBound(maxLines: nat, maxBytes: nat)
    ensures var lines := Repeat(maxBytes, Line(0, "x")) + Repeat(maxLines, Line(0, ""));
            Drift(Pushes(Empty(maxLines, maxBytes), lines)) == maxBytes
  {
    hide Pushes, Evictions;
    var full, blank := Repeat(maxBytes, Line(0, "x")), Repeat(maxLines, Line(0, ""));
    var lines := full + blank;
    assert History(lines) == lines;
    assert lines[..maxBytes] == full && lines[maxBytes..] == blank;
    SizeSplit(lines, maxBytes);
    RepeatSize(maxBytes, Line(0, "x"));
    RepeatSize(maxLines, Line(0, ""));
    NoEvictionYet(maxLines, maxBytes, lines);
    assert Bounded(lines, maxLines) == blank;
  }

  /** What eviction leaves when the drift alone fills the bound. */
  lemma {:induction false} EvictsToOneIff(buf: seq<Line>, bytes: int, maxBytes: nat)
    requires buf != [] && bytes - Size(buf) >= maxBytes
    ensures Evictions(buf, bytes, maxBytes) == |buf| - 1 <==>
            || bytes - Size(buf) > maxBytes || |buf| == 1
            || buf[|buf| - 1].text != "" || buf[|buf| - 2].text != ""
  {
    if |buf| > 1 {
      EvictsToOneIff(buf[1..], bytes - |buf[0].text|, maxBytes);
      if bytes <= maxBytes {
        assert Size(buf) == 0;
        SizeZero(buf);
      } else if |buf| == 2 {
        assert Size(buf) == |buf[0].text| + |buf[1].text| by { assert buf[1..][1..] == []; }
      }
    }
  }

  lemma {:induction false} SizeZero(buf: seq<Line>)
    requires Size(buf) == 0
    ensures forall i :: 0 <= i < |buf| ==> buf[i].text == ""
  {
    if buf != [] { SizeZero(buf[1..]); }
  }

  /** Once the drift is at the byte bound: beyond it every push leaves a single line; at it exactly
      those that do not end in two empty lines. */
  lemma FullDriftLeavesOneIff(r: Ring, ts: int, line: string)
    requires 1 <= r.maxLines && |r.buf| <= r.maxLines && Drift(Push(r, ts, line)) >= r.maxBytes
    ensures var buf := Bounded(r.buf + [Line(ts, Clip(line))], r.maxLines);
            |Push(r, ts, line).buf| == 1 <==>
              || Drift(Push(r, ts, line)) > r.maxBytes || line != ""
              || |buf| == 1 || buf[|buf| - 2].text != ""
  {
    hide Size, Evictions;
    var l := Line(ts, Clip(line));
    var buf := Bounded(r.buf + [l], r.maxLines);
    BoundedLast(r.buf, l, r.maxLines);
    EvictionSize(buf, r.bytes + |l.text|, r.maxBytes);
    EvictsToOneIff(buf, r.bytes + |l.text|, r.maxBytes);
  }

  lemma BoundedLast(buf: seq<Line>, l: Line, maxLines: nat)
    requires maxLines >= 1
    ensures var b := Bounded(buf + [l], maxLines); b != [] && b[|b| - 1] == l
  {}

  /** And it stays so: after the drift has filled the bound, every push of a line with a text leaves
      that line alone in the ring. */
  lemma {:induction false} OneLineForGood(r: Ring, more: seq<Line>)
    requires 1 <= r.maxLines && |r.buf| <= r.maxLines && Drift(r) >= r.maxBytes
    ensures var after := Pushes(r, more);
            && (after.maxLines, after.maxBytes) == (r.maxLines, r.maxBytes)
            && |after.buf| <= r.maxLines && Drift(after) >= r.maxBytes
            && (more != [] && more[|more| - 1].text != "" ==> |after.buf| == 1)
  {
    if more != [] {
      var n := |more| - 1;
      OneLineForGood(r, more[..n]);
      StaysFull(Pushes(r, more[..n]), more[n].ts, more[n].text);
    }
  }

  lemma StaysFull(r: Ring, ts: int, line: string)
    requires 1 <= r.maxLines && |r.buf| <= r.maxLines && Drift(r) >= r.maxBytes
    ensures Drift(Push(r, ts, line)) >= r.maxBytes && |Push(r, ts, line).buf| <= r.maxLines
    ensures line != "" ==> |Push(r, ts, line).buf| == 1
  {
    DriftStep(r, ts, line);
    FullDriftLeavesOneIff(r, ts, line);
  }
}
