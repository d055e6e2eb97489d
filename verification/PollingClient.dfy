/** The polling protocol: a client that hands back each offset it was given, clears its screen
    when told to, and appends what it receives, against a ring that is being filled. */
module PollingClient {
  import opened Utf8
  import opened OutputBuffer

  /** `fed` bytes of the output have arrived.  `from` is where the shown text starts in it; the
      client does not know it. */
  datatype Session =
    Session(ring: Ring, fed: nat, running: bool, cursor: nat, text: seq<Glyph>, from: nat, refused: bool)

  datatype Event = Arrive(n: nat) | Finish | Poll

  function Open(limit: nat): Session {
    Session(Empty(limit), 0, true, 0, [], 0, false)
  }

  predicate Enabled(t: seq<byte>, x: Session, e: Event) {
    match e
    case Arrive(n) => x.running && x.fed + n <= |t|
    case Finish => x.running && x.fed == |t|
    case Poll => x.ring.pending <= |x.ring.data|
  }

  /** t is everything the command will ever print. */
  function Step(t: seq<byte>, x: Session, e: Event): Session
    requires Enabled(t, x, e)
  {
    match e
    case Arrive(n) => x.(ring := Append(x.ring, t[x.fed..x.fed + n]), fed := x.fed + n)
    case Finish => x.(running := false)
    case Poll => Receive(x, Snapshot(x.ring, At(x.cursor), !x.running))
  }

  function Receive(x: Session, v: View): Session {
    if v.Refused? then x.(refused := true)
    else if v.reset then x.(cursor := v.next, text := v.text, from := v.base)
    else x.(cursor := v.next, text := x.text + v.text)
  }

  predicate Runs(t: seq<byte>, x: Session, es: seq<Event>)
    decreases |es|
  {
    es == [] || (Enabled(t, x, es[0]) && Runs(t, Step(t, x, es[0]), es[1..]))
  }

  function Run(t: seq<byte>, x: Session, es: seq<Event>): Session
    requires Runs(t, x, es)
    decreases |es|
  {
    if es == [] then x else Run(t, Step(t, x, es[0]), es[1..])
  }

  // ----- What every poll and every arrival keeps -----

  ghost predicate RingOk(t: seq<byte>, x: Session) {
    && x.fed <= |t|
    && RingIs(t, x.fed, x.ring)
    && (!x.running ==> x.fed == |t|)
  }

  ghost predicate RingIs(t: seq<byte>, fed: nat, r: Ring)
    requires fed <= |t|
  {
    r == RingOf(t[..fed], r.limit)
  }

  ghost predicate ScreenOk(t: seq<byte>, x: Session)
    requires x.fed <= |t|
  {
    && !x.refused
    && x.from <= x.cursor <= LastBoundary(t, x.fed)
    && Boundary(t, x.from) && Boundary(t, x.cursor)
    && x.text == Decode(t[x.from..x.cursor])
  }

  ghost predicate Faithful(t: seq<byte>, x: Session) {
    RingOk(t, x) && ScreenOk(t, x)
  }

  lemma StartIsBoundary(t: seq<byte>)
    requires WellFormed(t)
    ensures Boundary(t, 0)
  {
  }

  lemma OpenIsFaithful(t: seq<byte>, limit: nat)
    requires WellFormed(t)
    ensures Faithful(t, Open(limit))
  {
    StartIsBoundary(t);
    assert t[..0] == [] && t[0..0] == [];
  }

  lemma LastBoundaryGrows(t: seq<byte>, m: nat, n: nat)
    requires m <= n <= |t|
    ensures LastBoundary(t, m) <= LastBoundary(t, n)
  {
    var b := LastBoundary(t, m);
    assert b == 0 || Boundary(t, b);
  }

  lemma ArriveKeeps(t: seq<byte>, x: Session, n: nat)
    requires Faithful(t, x) && Enabled(t, x, Arrive(n))
    requires RingIs(t, x.fed + n, Append(x.ring, t[x.fed..x.fed + n]))
    ensures Faithful(t, Step(t, x, Arrive(n)))
  {
    hide Pending, Scan, Decode, RingOf, Append;
    LastBoundaryGrows(t, x.fed, x.fed + n);
    ScreenWaits(t, x, Step(t, x, Arrive(n)));
  }

  lemma ScreenWaits(t: seq<byte>, x: Session, y: Session)
    requires x.fed <= y.fed <= |t| && ScreenOk(t, x)
    requires LastBoundary(t, x.fed) <= LastBoundary(t, y.fed)
    requires (y.refused, y.from, y.cursor, y.text) == (x.refused, x.from, x.cursor, x.text)
    ensures ScreenOk(t, y)
  {
  }

  lemma TakeConcat(t: seq<byte>, i: nat, j: nat)
    requires i <= j <= |t|
    ensures t[..i] + t[i..j] == t[..j]
  {
  }

  lemma SliceConcat(t: seq<byte>, i: nat, j: nat, k: nat)
    requires i <= j <= k <= |t|
    ensures t[i..j] + t[j..k] == t[i..k]
  {
  }

  lemma ArriveRing(t: seq<byte>, fed: nat, n: nat, r: Ring)
    requires r.limit > 0 && fed + n <= |t| && NoLongRun(t[..fed + n], r.limit) && RingIs(t, fed, r)
    ensures RingIs(t, fed + n, Append(r, t[fed..fed + n]))
  {
    TakeConcat(t, fed, fed + n);
    FillRing(t[..fed], t[fed..fed + n], t[..fed + n], r);
  }

  lemma FillRing(h: seq<byte>, c: seq<byte>, all: seq<byte>, r: Ring)
    requires h + c == all && r.limit > 0 && NoLongRun(all, r.limit) && r == RingOf(h, r.limit)
    ensures Append(r, c) == RingOf(all, Append(r, c).limit)
  {
    AppendToRing(h, c, r.limit);
  }

  /** The ring starts at a character, and withholds just what follows the last one. */
  lemma RingMeetsBoundaries(t: seq<byte>, n: nat, limit: nat)
    requires WellFormed(t) && n <= |t| && limit >= 3
    ensures var r := RingOf(t[..n], limit);
            && Boundary(t, r.base) && r.base <= LastBoundary(t, n)
            && r.base + |r.data| == n && r.base + |r.data| - r.pending == LastBoundary(t, n)
            && r.data == t[r.base..n]
  {
    hide Pending, Scan, Decode, WellFormed;
    var h := t[..n];
    var b := Base(h, limit);
    StartIsBoundary(t);
    if n > limit {
      assert b < n ==> t[b] == h[b];
      if b == n && n < |t| && Continuation(t[n]) {
        assert forall i :: n - limit <= i < n ==> h[i] == t[i];
        AtMostThreeContinuations(t, n - 3);
        assert false;
      }
    }
    assert h[b..] == t[b..n];
    PendingAfterBoundary(t, b, n);
    assert b <= LastBoundary(t, n);
  }

  lemma PollKeeps(t: seq<byte>, x: Session)
    requires WellFormed(t) && x.ring.limit >= 3 && Faithful(t, x)
    ensures Enabled(t, x, Poll) && Faithful(t, Step(t, x, Poll))
    ensures !x.running ==> Step(t, x, Poll).cursor == |t|
  {
    hide Pending, Scan, Decode, WellFormed;
    RingMeetsBoundaries(t, x.fed, x.ring.limit);
    var r, last := x.ring, LastBoundary(t, x.fed);
    if !x.running {
      assert Boundary(t, |t|);
      assert last == |t|;
    }
    var start := if x.cursor < r.base then r.base else x.cursor;
    PollShows(t, r, x.fed, x.cursor, !x.running, start, last);
    if start > x.cursor {
      Slice(t, start, last);
    } else {
      JoinSlices(t, x.from, x.cursor, last);
    }
  }

  /** What a poll from a boundary returns. */
  lemma PollShows(t: seq<byte>, r: Ring, n: nat, cursor: nat, final: bool, start: nat, last: nat)
    requires r.base <= last <= n <= |t| && cursor <= last && Boundary(t, start)
    requires r.pending <= |r.data| && r.base + |r.data| == n
    requires r.base + |r.data| - r.pending == last && r.data == t[r.base..n]
    requires final ==> last == n
    requires start == if cursor < r.base then r.base else cursor
    ensures Snapshot(r, At(cursor), final) == Shown(Decode(t[start..last]), last, r.base, cursor < r.base)
  {
    hide Pending, Scan, Decode;
    LocateAt(r, cursor, final, start, last);
    ShowSlice(t, r.data, r.base, n, start, last, cursor < r.base);
  }

  lemma LocateAt(r: Ring, cursor: nat, final: bool, start: nat, last: nat)
    requires r.pending <= |r.data| && cursor <= last && r.base <= last
    requires last == r.base + if final then |r.data| else |r.data| - r.pending
    requires start == if cursor < r.base then r.base else cursor
    ensures Locate(r, At(cursor), final) == Part(start - r.base, last - r.base, cursor < r.base)
  {
  }

  lemma ShowSlice(t: seq<byte>, data: seq<byte>, base: nat, n: nat, start: nat, last: nat, reset: bool)
    requires base <= start <= last <= n <= |t| && data == t[base..n] && Boundary(t, start)
    ensures Show(data, Part(start - base, last - base, reset), base) == Shown(Decode(t[start..last]), last, base, reset)
  {
    hide Pending, Scan, Decode;
    SliceOfSlice(t, base, n, start, last);
    assert start < last ==> data[start - base] == t[start];
  }

  lemma SliceOfSlice(s: seq<byte>, i: nat, n: nat, a: nat, b: nat)
    requires i <= a <= b <= n <= |s|
    ensures s[i..n][a - i..b - i] == s[a..b]
  {
    var u, v := s[i..n][a - i..b - i], s[a..b];
    forall k | 0 <= k < b - a ensures u[k] == v[k] {
      assert u[k] == s[i..n][a - i + k];
    }
  }

  lemma JoinSlices(t: seq<byte>, i: nat, j: nat, k: nat)
    requires WellFormed(t) && i <= j <= k <= |t| && Boundary(t, i) && Boundary(t, j)
    ensures Decode(t[i..j]) + Decode(t[j..k]) == Decode(t[i..k])
  {
    hide Decode, WellFormed;
    Slice(t, i, j);
    WellFormedConcat(t[i..j], t[j..k]);
    SliceConcat(t, i, j, k);
  }

  lemma ArrivalKeeps(t: seq<byte>, x: Session, n: nat)
    requires WellFormed(t) && x.ring.limit >= 3 && Faithful(t, x) && Enabled(t, x, Arrive(n))
    ensures Faithful(t, Step(t, x, Arrive(n)))
  {
    hide Pending, Scan, Decode, WellFormed, RingOf, Append;
    assert RingIs(t, x.fed + n, Append(x.ring, t[x.fed..x.fed + n])) by {
      WellFormedHasNoLongRun(t, x.fed + n, x.ring.limit);
      ArriveRing(t, x.fed, n, x.ring);
    }
    ArriveKeeps(t, x, n);
  }

  lemma StepKeeps(t: seq<byte>, x: Session, e: Event)
    requires WellFormed(t) && x.ring.limit >= 3 && Faithful(t, x) && Enabled(t, x, e)
    ensures Faithful(t, Step(t, x, e)) && Step(t, x, e).ring.limit == x.ring.limit
  {
    hide Pending, Scan, Decode, WellFormed, RingOf;
    match e
    case Arrive(n) => ArrivalKeeps(t, x, n);
    case Finish =>
    case Poll => PollKeeps(t, x);
  }

  lemma {:induction false} RunKeeps(t: seq<byte>, x: Session, es: seq<Event>)
    requires WellFormed(t) && x.ring.limit >= 3 && Faithful(t, x) && Runs(t, x, es)
    ensures Faithful(t, Run(t, x, es)) && Run(t, x, es).ring.limit >= 3
    decreases |es|
  {
    hide Pending, Scan, Decode, WellFormed;
    if es != [] {
      StepKeeps(t, x, es[0]);
      RunKeeps(t, Step(t, x, es[0]), es[1..]);
    }
  }

  // ----- The main results -----

  /** However arrivals and polls interleave, the client is never refused; what it shows is the
      decoding of one contiguous, well-formed slice of the output that ends at its cursor, with
      no replacement character in it. */
  lemma ClientShowsSlice(t: seq<byte>, limit: nat, es: seq<Event>)
    requires WellFormed(t) && limit >= 3 && Runs(t, Open(limit), es)
    ensures var x := Run(t, Open(limit), es);
            && !x.refused
            && x.from <= x.cursor <= x.fed <= |t|
            && WellFormed(t[x.from..x.cursor])
            && x.text == Decode(t[x.from..x.cursor])
            && Replacement !in x.text
  {
    hide Pending, Scan, Decode, WellFormed;
    OpenIsFaithful(t, limit);
    RunKeeps(t, Open(limit), es);
    var x := Run(t, Open(limit), es);
    Slice(t, x.from, x.cursor);
    WellFormedHasNoReplacement(t[x.from..x.cursor]);
  }

  /** The poll that reports the end delivers the output to its last byte. */
  lemma ClientShowsEnd(t: seq<byte>, limit: nat, es: seq<Event>)
    requires WellFormed(t) && limit >= 3 && Runs(t, Open(limit), es)
    requires !Run(t, Open(limit), es).running
    ensures var x := Run(t, Open(limit), es);
            && Enabled(t, x, Poll)
            && Step(t, x, Poll).from <= Step(t, x, Poll).cursor == |t|
            && Step(t, x, Poll).text == Decode(t[Step(t, x, Poll).from..])
  {
    hide Pending, Scan, Decode, WellFormed;
    OpenIsFaithful(t, limit);
    RunKeeps(t, Open(limit), es);
    var x := Run(t, Open(limit), es);
    PollKeeps(t, x);
    var y := Step(t, x, Poll);
    assert t[y.from..] == t[y.from..y.cursor];
  }

  // ----- A command that is killed inside a character -----

  /** t is what came of w.  After the end the screen holds whole characters up to the cursor, or all
      there is. */
  ghost predicate Kept(w: seq<byte>, t: seq<byte>, x: Session) {
    && t <= w && x.fed <= |t|
    && if x.running then Faithful(w, x)
       else x.fed == |t| && RingIs(w, |t|, x.ring) && (ScreenOk(w, x) || AllShown(w, |t|, x))
  }

  ghost predicate AllShown(w: seq<byte>, n: nat, x: Session)
    requires n <= |w|
  {
    && !x.refused && x.from <= LastBoundary(w, n) && x.cursor == n
    && Boundary(w, x.from) && x.text == Decode(w[x.from..n])
  }

  lemma LastPoll(w: seq<byte>, t: seq<byte>, x: Session)
    requires WellFormed(w) && x.ring.limit >= 3 && Kept(w, t, x) && !x.running
    ensures Enabled(t, x, Poll) && AllShown(w, |t|, Step(t, x, Poll))
  {
    hide Pending, Scan, Decode, WellFormed, Locate, Show;
    var r, n := x.ring, |t|;
    RingMeetsBoundaries(w, n, r.limit);
    if x.cursor < r.base || ScreenOk(w, x) {
      var start := if x.cursor < r.base then r.base else x.cursor;
      LocateAt(r, x.cursor, true, start, n);
      ShowSlice(w, r.data, r.base, n, start, n, x.cursor < r.base);
      if start == x.cursor { JoinSlices(w, x.from, x.cursor, n); }
    } else {
      LocateAt(r, n, true, n, n);
      NothingMore(r.data, r.base, n);
    }
  }

  lemma NothingMore(data: seq<byte>, base: nat, n: nat)
    requires base <= n && |data| == n - base
    ensures Show(data, Part(n - base, n - base, false), base) == Shown([], n, base, false)
  {}

  lemma {:induction false} RunKept(w: seq<byte>, t: seq<byte>, x: Session, es: seq<Event>)
    requires WellFormed(w) && x.ring.limit >= 3 && Kept(w, t, x) && Runs(t, x, es)
    ensures Kept(w, t, Run(t, x, es)) && Run(t, x, es).ring.limit >= 3
    decreases |es|
  {
    hide Pending, Scan, Decode, WellFormed, RingOf;
    if es != [] {
      var y := Step(t, x, es[0]);
      if es[0].Poll? && !x.running {
        LastPoll(w, t, x);
      } else if es[0].Finish? {
        assert ScreenOk(w, x);
      } else {
        assert y == Step(w, x, es[0]) by {
          if es[0].Arrive? { assert t[x.fed..x.fed + es[0].n] == w[x.fed..x.fed + es[0].n]; }
        }
        StepKeeps(w, x, es[0]);
      }
      RunKept(w, t, y, es[1..]);
    }
  }

  /** What a cut leaves of a slice: its whole characters, and one replacement if one is cut. */
  lemma CutSlice(w: seq<byte>, i: nat, n: nat)
    requires WellFormed(w) && n <= |w| && i <= LastBoundary(w, n) && Boundary(w, i)
    ensures var b := LastBoundary(w, n);
            && Decode(w[i..n]) == Decode(w[i..b]) + (if b == n then [] else [Replacement])
            && Replacement !in Decode(w[i..b])
  {
    hide Pending, Scan, WellFormed;
    StartIsBoundary(w);
    var b := LastBoundary(w, n);
    Slice(w, i, b);
    WellFormedHasNoReplacement(w[i..b]);
    JoinSlices(w, i, b, n);
    if b < n { UnitAt(w, b, n); }
  }

  /** Well-formed text cut anywhere, as a killed command leaves it: the client is never refused, and
      the poll that reports the end shows the text up to the last byte, with one replacement character
      at its end exactly if a character was cut, and none before it. */
  lemma ClientShowsCut(w: seq<byte>, n: nat, limit: nat, es: seq<Event>)
    requires WellFormed(w) && n <= |w| && limit >= 3 && Runs(w[..n], Open(limit), es)
    ensures var x := Run(w[..n], Open(limit), es);
            && !x.refused
            && (!x.running ==>
                  && Enabled(w[..n], x, Poll)
                  && var y := Step(w[..n], x, Poll);
                     var b := LastBoundary(w, n);
                  && !y.refused && y.from <= b && y.cursor == n
                  && y.text == Decode(w[y.from..b]) + (if b == n then [] else [Replacement])
                  && Replacement !in Decode(w[y.from..b]))
  {
    hide Pending, Scan, Decode, WellFormed;
    OpenIsFaithful(w, limit);
    RunKept(w, w[..n], Open(limit), es);
    var x := Run(w[..n], Open(limit), es);
    if !x.running {
      LastPoll(w, w[..n], x);
      CutSlice(w, Step(w[..n], x, Poll).from, n);
    }
  }
}
