/** For arbitrary bytes, and any limit of the ring: exactly when the polling client can be refused
    a cursor it was given. */
module RefusedCursors {
  import opened Utf8
  import opened OutputBuffer
  import opened PollingClient

  // ----- What is held back, by position -----

  predicate IncompleteAt(t: seq<byte>, q: nat, n: nat)
    requires n <= |t|
  {
    q < n && Incomplete(t[q..n])
  }

  /** A leading byte and at most two continuation bytes. */
  lemma IncompleteShape(t: seq<byte>, q: nat, n: nat)
    requires n <= |t| && IncompleteAt(t, q, n)
    ensures n <= q + 3 && !Continuation(t[q])
    ensures forall i :: q < i < n ==> Continuation(t[i])
  {
    var s := t[q..n];
    IncompleteBytes(s);
    assert s[0] == t[q];
    forall i | q < i < n ensures Continuation(t[i]) { assert s[i - q] == t[i]; }
  }

  lemma ShortPrefix(s: seq<byte>, k: nat)
    requires Incomplete(s) && 0 < k <= |s|
    ensures Incomplete(s[..k])
  {
    assert s[..k][0] == s[0];
    if k > 1 { assert s[..k][1] == s[1]; }
    if k > 2 { assert s[..k][2] == s[2]; }
  }

  lemma IncompletePrefix(t: seq<byte>, q: nat, m: nat, n: nat)
    requires n <= |t| && IncompleteAt(t, q, n) && q < m <= n
    ensures IncompleteAt(t, q, m)
  {
    hide Pending, Scan;
    ShortPrefix(t[q..n], m - q);
    assert t[q..n][..m - q] == t[q..m];
  }

  lemma PendingStarts(t: seq<byte>, a: nat, n: nat)
    requires a <= n <= |t|
    ensures var p := Pending(t[a..n]); p > 0 ==> a <= n - p && IncompleteAt(t, n - p, n)
  {
    hide Pending, Scan;
    var s := t[a..n];
    var p := Pending(s);
    PendingIsIncomplete(s);
    if p > 0 { assert s[|s| - p..] == t[n - p..n]; }
  }

  lemma PendingIs(t: seq<byte>, a: nat, q: nat, n: nat)
    requires a <= q < n <= |t| && IncompleteAt(t, q, n)
    ensures Pending(t[a..n]) == n - q
  {
    hide Pending, Scan;
    assert t[a..n][q - a..] == t[q..n];
    IncompleteIsPending(t[a..n], q - a);
  }

  /** Whether decoding starts at a or before it makes no difference, unless a is inside a character. */
  lemma PendingSame(t: seq<byte>, a: nat, n: nat)
    requires a <= n <= |t| && (a == 0 || (a < n && !Continuation(t[a])))
    ensures Pending(t[a..n]) == Pending(t[..n])
  {
    hide Pending, Scan;
    assert t[0..n] == t[..n];
    var p, q := Pending(t[0..n]), Pending(t[a..n]);
    PendingStarts(t, 0, n);
    PendingStarts(t, a, n);
    if q > 0 {
      PendingIs(t, 0, n - q, n);
    } else if p > 0 {
      IncompleteShape(t, n - p, n);
      if n - p >= a { PendingIs(t, a, n - p, n); }
    }
  }

  /** A continuation byte that comes while nothing is pending leaves nothing pending. */
  lemma StrayPends(t: seq<byte>, a: nat, i: nat)
    requires a <= i < |t| && Continuation(t[i]) && Pending(t[a..i]) == 0
    ensures Pending(t[a..i + 1]) == 0
  {
    hide Pending, Scan;
    var p := Pending(t[a..i + 1]);
    PendingStarts(t, a, i + 1);
    if p > 0 {
      IncompleteShape(t, i + 1 - p, i + 1);
      if i + 1 - p < i {
        IncompletePrefix(t, i + 1 - p, i, i + 1);
        PendingIs(t, a, i + 1 - p, i);
      }
    }
  }

  // ----- Where the ring starts -----

  ghost predicate Run(t: seq<byte>, a: nat, b: nat)
    requires b <= |t|
  {
    forall i :: a <= i < b ==> Continuation(t[i])
  }

  function Start(t: seq<byte>, limit: nat, n: nat): (b: nat)
    requires n <= |t|
    ensures b <= n
  {
    Base(t[..n], limit)
  }

  /** The ring starts at the first boundary from `limit` bytes before the end on. */
  lemma StartShape(t: seq<byte>, limit: nat, n: nat)
    requires n <= |t|
    ensures var b := Start(t, limit, n);
            && (n <= limit ==> b == 0)
            && (n > limit ==> n - limit <= b && Run(t, n - limit, b) && (b < n ==> !Continuation(t[b])))
  {
    hide Pending, Scan, Decode;
    var h, b := t[..n], Start(t, limit, n);
    if n > limit {
      forall i | n - limit <= i < b ensures Continuation(t[i]) { assert h[i] == t[i]; }
      if b < n { assert h[b] == t[b]; }
    }
  }

  lemma StartGrows(t: seq<byte>, limit: nat, m: nat, n: nat)
    requires m <= n <= |t|
    ensures Start(t, limit, m) <= Start(t, limit, n)
  {
    hide Pending, Scan, Decode;
    StartShape(t, limit, m);
    StartShape(t, limit, n);
  }

  /** Without a run that is too long, a ring is empty only where no continuation byte follows. */
  lemma EmptyRing(t: seq<byte>, limit: nat, n: nat)
    requires n < |t| && limit > 0 && NoLongRun(t, limit) && Continuation(t[n])
    ensures var b := Start(t, limit, n); b == 0 || (b < n && !Continuation(t[b]))
  {
    hide Pending, Scan, Decode;
    StartShape(t, limit, n);
    if n > limit { NoRunHere(t, limit, n - limit); }
  }

  lemma NoRunHere(t: seq<byte>, limit: nat, a: nat)
    requires NoLongRun(t, limit) && 1 <= a && a + limit < |t|
    ensures !Run(t, a, a + limit + 1)
  {
    assert !LongRun(t, limit, a);
  }

  // ----- The condition -----

  /** The byte at i is a continuation byte although nothing is withheld before it. */
  predicate Stray(t: seq<byte>, i: nat) {
    i < |t| && Continuation(t[i]) && Pending(t[..i]) == 0
  }

  /** The byte at i is cut from the ring as soon as it comes: it ends a run of `limit`
      continuation bytes. */
  ghost predicate Swallowed(t: seq<byte>, limit: nat, i: nat) {
    limit <= i < |t| && Run(t, i + 1 - limit, i + 1)
  }

  ghost predicate Safe(t: seq<byte>, limit: nat) {
    NoLongRun(t, limit) && forall i: nat :: Stray(t, i) ==> Swallowed(t, limit, i)
  }

  lemma SwallowedIff(t: seq<byte>, limit: nat, i: nat)
    requires i < |t| && limit > 0
    ensures Swallowed(t, limit, i) <==> Start(t, limit, i + 1) == i + 1
  {
    hide Pending, Scan, Decode;
    StartShape(t, limit, i + 1);
  }

  // ----- A safe output is never refused -----

  function Visible(x: Session): int { x.fed - if x.running then x.ring.pending else 0 }

  ghost predicate CursorOk(t: seq<byte>, x: Session) {
    && !x.refused
    && x.cursor <= Visible(x)
    && (x.cursor < |t| && Continuation(t[x.cursor]) ==> Stray(t, x.cursor))
  }

  ghost predicate Going(t: seq<byte>, limit: nat, x: Session) {
    && limit > 0 && x.ring.limit == limit && Safe(t, limit)
    && RingOk(t, x) && CursorOk(t, x)
  }

  /** What a ring that meets its closed form is, by position. */
  lemma RingByPosition(t: seq<byte>, fed: nat, r: Ring)
    requires fed <= |t| && RingIs(t, fed, r)
    ensures var b := Start(t, r.limit, fed);
            && r.base == b && r.data == t[b..fed] && r.end == fed && r.pending == Pending(t[b..fed])
  {
    hide Pending, Scan, Decode;
    assert t[..fed][r.base..] == t[r.base..fed];
  }

  lemma VisibleGrows(t: seq<byte>, limit: nat, m: nat, n: nat)
    requires m <= n <= |t|
    ensures m - Pending(t[Start(t, limit, m)..m]) <= n - Pending(t[Start(t, limit, n)..n])
  {
    hide Pending, Scan, Decode;
    var a, b := Start(t, limit, m), Start(t, limit, n);
    var p := Pending(t[b..n]);
    StartGrows(t, limit, m, n);
    PendingStarts(t, b, n);
    if p > 0 && n - p < m {
      IncompletePrefix(t, n - p, m, n);
      PendingIs(t, a, n - p, m);
    }
  }

  lemma ArriveGoes(t: seq<byte>, limit: nat, x: Session, n: nat)
    requires Going(t, limit, x) && Enabled(t, x, Arrive(n))
    ensures Going(t, limit, Step(t, x, Arrive(n)))
  {
    hide Pending, Scan, Decode;
    var y := Step(t, x, Arrive(n));
    assert t[..y.fed] + t[y.fed..] == t;
    NoLongRunPrefix(t[..y.fed], t[y.fed..], limit);
    ArriveRing(t, x.fed, n, x.ring);
    RingByPosition(t, x.fed, x.ring);
    RingByPosition(t, y.fed, y.ring);
    VisibleGrows(t, limit, x.fed, y.fed);
  }

  /** The byte at the cursor, or at the head of the ring behind it, starts a character. */
  lemma PollIsClean(t: seq<byte>, limit: nat, x: Session)
    requires Going(t, limit, x)
    ensures var start := if x.cursor < x.ring.base then x.ring.base else x.cursor;
            start < Visible(x) ==> !Continuation(t[start])
  {
    hide Pending, Scan, Decode;
    RingByPosition(t, x.fed, x.ring);
    StartShape(t, limit, x.fed);
    if x.cursor < x.fed {
      SwallowedIff(t, limit, x.cursor);
      StartGrows(t, limit, x.cursor + 1, x.fed);
    }
  }

  /** What a poll hands out is again a clean or a stray position. */
  lemma VisibleIsClean(t: seq<byte>, limit: nat, x: Session)
    requires Going(t, limit, x)
    ensures 0 <= Visible(x) <= |t|
    ensures Visible(x) < |t| && Continuation(t[Visible(x)]) ==> Stray(t, Visible(x))
  {
    hide Pending, Scan, Decode;
    RingByPosition(t, x.fed, x.ring);
    var b, v := x.ring.base, Visible(x);
    PendingStarts(t, b, x.fed);
    if v < |t| && Continuation(t[v]) {
      if v < x.fed {
        IncompleteShape(t, v, x.fed);
      } else {
        EmptyRing(t, limit, v);
        PendingSame(t, b, v);
      }
    }
  }

  lemma PollGoes(t: seq<byte>, limit: nat, x: Session)
    requires Going(t, limit, x) && Enabled(t, x, Poll)
    ensures Going(t, limit, Step(t, x, Poll))
  {
    hide Pending, Scan, Decode;
    RingByPosition(t, x.fed, x.ring);
    PollIsClean(t, limit, x);
    VisibleIsClean(t, limit, x);
    var start := if x.cursor < x.ring.base then x.ring.base else x.cursor;
    PollShows(t, x, start);
  }

  /** A poll that starts at a clean position is answered, up to the visible end. */
  lemma PollShows(t: seq<byte>, x: Session, start: nat)
    requires x.ring.pending <= |x.ring.data| && x.fed <= |t|
    requires x.ring.base + |x.ring.data| == x.fed && x.ring.data == t[x.ring.base..x.fed]
    requires x.cursor <= Visible(x) && start == if x.cursor < x.ring.base then x.ring.base else x.cursor
    ensures var v := Snapshot(x.ring, At(x.cursor), !x.running);
            if start < Visible(x) && Continuation(t[start]) then v.Refused?
            else v.Shown? && v.next == Visible(x)
  {
    hide Pending, Scan, Decode;
    LocateAt(x.ring, x.cursor, !x.running, start, Visible(x));
    assert start < Visible(x) ==> x.ring.data[start - x.ring.base] == t[start];
  }

  lemma {:induction false} RunGoes(t: seq<byte>, limit: nat, x: Session, es: seq<Event>)
    requires Going(t, limit, x) && Runs(t, x, es)
    ensures Going(t, limit, PollingClient.Run(t, x, es))
    decreases |es|
  {
    hide Pending, Scan, Decode;
    if es != [] {
      match es[0] {
        case Arrive(n) => ArriveGoes(t, limit, x, n);
        case Finish =>
        case Poll => PollGoes(t, limit, x);
      }
      RunGoes(t, limit, Step(t, x, es[0]), es[1..]);
    }
  }

  // ----- An unsafe output can be refused -----

  /** However arrivals and polls interleave. */
  ghost predicate NeverRefused(t: seq<byte>, limit: nat) {
    forall es :: !RefusedBy(t, limit, es)
  }

  ghost predicate RefusedBy(t: seq<byte>, limit: nat, es: seq<Event>) {
    Runs(t, Open(limit), es) && PollingClient.Run(t, Open(limit), es).refused
  }

  lemma ConsRun(t: seq<byte>, x: Session, e: Event, es: seq<Event>)
    requires Enabled(t, x, e) && Runs(t, Step(t, x, e), es)
    ensures Runs(t, x, [e] + es) && PollingClient.Run(t, x, [e] + es) == PollingClient.Run(t, Step(t, x, e), es)
  {
    assert ([e] + es)[1..] == es;
  }

  lemma JustRun(t: seq<byte>, x: Session, e: Event)
    requires Enabled(t, x, e)
    ensures Runs(t, x, [e]) && PollingClient.Run(t, x, [e]) == Step(t, x, e)
  {
    ConsRun(t, x, e, []);
    assert [e] + [] == [e];
  }

  /** After a run that is too long the ring is empty, and its last byte comes to stand at its head. */
  lemma LongRunIsRefused(t: seq<byte>, limit: nat, a: nat)
    requires limit > 0 && LongRun(t, limit, a)
    ensures !NeverRefused(t, limit)
  {
    hide Pending, Scan, Decode, Append, Snapshot;
    var n := a + limit;
    var x := Open(limit);
    var y := Step(t, x, Arrive(n));
    var z := Step(t, y, Arrive(1));
    assert t[0..n] == t[..n] && t[n..n + 1] == [t[n]];
    EmptiedByRun(t[..n], limit, a);
    AloneInRing(y.ring, t[n]);
    assert z.ring.data == t[n..n + 1];
    PollShows(t, z, n);
    JustRun(t, z, Poll);
    ConsRun(t, y, Arrive(1), [Poll]);
    ConsRun(t, x, Arrive(n), [Arrive(1)] + [Poll]);
    assert RefusedBy(t, limit, [Arrive(n)] + ([Arrive(1)] + [Poll]));
  }

  lemma AloneInRing(r: Ring, b: byte)
    requires r.data == [] && r.limit > 0 && Continuation(b)
    ensures Append(r, [b]) == Ring(r.limit, [b], r.base, r.end + 1, 0)
  {
    assert r.data + [b] == [b] && [b][0..] == [b] && [b][1..] == [];
    assert Scan([b]) == Bad(1);
  }

  /** A stray byte that stays in the ring is refused to a client that polled just before it. */
  lemma StrayIsRefused(t: seq<byte>, limit: nat, i: nat)
    requires limit > 0 && NoLongRun(t, limit) && Stray(t, i) && !Swallowed(t, limit, i)
    ensures !NeverRefused(t, limit)
  {
    hide Pending, Scan, Decode, Append, Snapshot;
    var x := Open(limit);
    var y := Step(t, x, Arrive(i));
    PolledBefore(t, limit, i, y);
    var y' := Step(t, y, Poll);
    var z := Step(t, y', Arrive(1));
    PolledAfter(t, limit, i, y', z);
    FourSteps(t, limit, Arrive(i), Poll, Arrive(1), Poll, y, y', z);
  }

  lemma FourSteps(t: seq<byte>, limit: nat, e0: Event, e1: Event, e2: Event, e3: Event,
                  y: Session, y': Session, z: Session)
    requires Enabled(t, Open(limit), e0) && y == Step(t, Open(limit), e0)
    requires Enabled(t, y, e1) && y' == Step(t, y, e1)
    requires Enabled(t, y', e2) && z == Step(t, y', e2)
    requires Enabled(t, z, e3) && Step(t, z, e3).refused
    ensures !NeverRefused(t, limit)
  {
    hide Enabled, Step;
    JustRun(t, z, e3);
    ConsRun(t, y', e2, [e3]);
    ConsRun(t, y, e1, [e2] + [e3]);
    ConsRun(t, Open(limit), e0, [e1] + ([e2] + [e3]));
    assert RefusedBy(t, limit, [e0] + ([e1] + ([e2] + [e3])));
  }

  lemma PolledBefore(t: seq<byte>, limit: nat, i: nat, y: Session)
    requires limit > 0 && NoLongRun(t, limit) && Stray(t, i) && y == Step(t, Open(limit), Arrive(i))
    ensures RingIs(t, i, y.ring) && y.ring.limit == limit
    ensures Enabled(t, y, Poll)
    ensures var y' := Step(t, y, Poll); y'.refused || y'.cursor == i
  {
    hide Pending, Scan, Decode;
    FirstArrival(t, limit, i);
    RingByPosition(t, i, y.ring);
    EmptyRing(t, limit, i);
    PendingSame(t, y.ring.base, i);
    PollShows(t, y, y.ring.base);
  }

  lemma FirstArrival(t: seq<byte>, limit: nat, i: nat)
    requires limit > 0 && NoLongRun(t, limit) && i <= |t|
    ensures var r := Append(Empty(limit), t[0..0 + i]); RingIs(t, i, r) && r.limit == limit
  {
    hide Pending, Scan, Decode;
    assert t[..i] + t[i..] == t;
    NoLongRunPrefix(t[..i], t[i..], limit);
    assert t[..0] == [];
    ArriveRing(t, 0, i, Empty(limit));
  }

  lemma PolledAfter(t: seq<byte>, limit: nat, i: nat, y: Session, z: Session)
    requires limit > 0 && NoLongRun(t, limit) && Stray(t, i) && !Swallowed(t, limit, i)
    requires RingIs(t, i, y.ring) && y.ring.limit == limit && y.fed == i && y.running
    requires (y.refused || y.cursor == i) && z == Step(t, y, Arrive(1))
    ensures Enabled(t, z, Poll) && Step(t, z, Poll).refused
  {
    hide Pending, Scan, Decode, Snapshot;
    assert t[..i + 1] + t[i + 1..] == t;
    NoLongRunPrefix(t[..i + 1], t[i + 1..], limit);
    ArriveRing(t, i, 1, y.ring);
    RingByPosition(t, i + 1, z.ring);
    SwallowedIff(t, limit, i);
    StartShape(t, limit, i + 1);
    assert t[0..i] == t[..i] && t[0..i + 1] == t[..i + 1];
    StrayPends(t, 0, i);
    PendingSame(t, z.ring.base, i + 1);
    if !z.refused { PollShows(t, z, i); }
  }

  // ----- The main results -----

  /** For every output and every limit: the client is never refused, whatever happens, if and only
      if no run of continuation bytes is too long, and every stray one is cut as it comes. */
  lemma NeverRefusedExactly(t: seq<byte>, limit: nat)
    requires limit > 0
    ensures NeverRefused(t, limit) <==> Safe(t, limit)
  {
    hide Pending, Scan, Decode;
    if Safe(t, limit) {
      forall es ensures !RefusedBy(t, limit, es) {
        if Runs(t, Open(limit), es) {
          assert t[..0] == [];
          RunGoes(t, limit, Open(limit), es);
        }
      }
    } else {
      if NoLongRun(t, limit) {
        var i: nat :| Stray(t, i) && !Swallowed(t, limit, i);
        StrayIsRefused(t, limit, i);
      } else {
        var a: nat :| LongRun(t, limit, a);
        LongRunIsRefused(t, limit, a);
      }
    }
  }

  /** After three continuation bytes nothing is pending. */
  lemma NothingAfterThree(t: seq<byte>, i: nat)
    requires 3 <= i <= |t| && Run(t, i - 3, i)
    ensures Pending(t[..i]) == 0
  {
    hide Pending, Scan, Decode;
    assert t[0..i] == t[..i];
    PendingStarts(t, 0, i);
    if Pending(t[0..i]) > 0 { IncompleteShape(t, i - Pending(t[0..i]), i); }
  }

  /** From a limit of five on the condition is just that no continuation byte is stray. */
  lemma SafeWhenLarge(t: seq<byte>, limit: nat)
    requires limit >= 5
    ensures Safe(t, limit) <==> forall i: nat :: !Stray(t, i)
  {
    hide Pending, Scan, Decode;
    if Safe(t, limit) {
      forall i: nat ensures !Stray(t, i) {
        if Stray(t, i) {
          NothingAfterThree(t, i - 1);
          assert Stray(t, i - 1);
          NoRunHere(t, limit, i - limit);
        }
      }
    } else if !NoLongRun(t, limit) {
      var a: nat :| LongRun(t, limit, a);
      NothingAfterThree(t, a + 3);
      assert Stray(t, a + 3);
    }
  }

  /** The condition for the limits in use. */
  lemma NeverRefusedWhenLarge(t: seq<byte>, limit: nat)
    requires limit >= 5
    ensures NeverRefused(t, limit) <==>
            forall i :: 0 <= i < |t| && Continuation(t[i]) ==> Pending(t[..i]) > 0
  {
    hide Pending, Scan, Decode;
    NeverRefusedExactly(t, limit);
    SafeWhenLarge(t, limit);
    if Safe(t, limit) {
      forall i | 0 <= i < |t| && Continuation(t[i]) ensures Pending(t[..i]) > 0 { assert !Stray(t, i); }
    }
  }

  /** The bytes of a surrogate are no text, but they become visible together: only a ring of one byte
      is refused. */
  lemma SurrogateIsNeverRefused(limit: nat)
    requires limit > 0
    ensures NeverRefused([0xED, 0xA0, 0x80], limit) <==> limit >= 2
  {
    var t: seq<byte> := [0xED, 0xA0, 0x80];
    NeverRefusedExactly(t, limit);
    if limit == 1 {
      assert LongRun(t, limit, 1);
    } else {
      assert t[..1] == [0xED] && t[..2] == [0xED, 0xA0];
      assert Incomplete(t[..1]) && HalfSurrogate(t[..2]);
      assert Pending(t[..1]) == 1 && Pending(t[..2]) == 2;
      assert Safe(t, limit);
    }
  }

  /** Two bytes that are no text are enough, for every limit but one. */
  lemma StrayByteIsRefused(limit: nat)
    requires limit >= 2
    ensures !NeverRefused([0x41, 0x80], limit)
  {
    var t: seq<byte> := [0x41, 0x80];
    assert t[..1] == [0x41] && [0x41][1..] == [];
    assert Scan([0x41]) == Char(1);
    assert Stray(t, 1);
    StrayIsRefused(t, limit, 1);
  }

  /** For well-formed output: three bytes is the smallest ring that never refuses. */
  lemma NeverRefusedIff(limit: nat)
    requires limit > 0
    ensures limit >= 3 <==> forall t :: WellFormed(t) ==> NeverRefused(t, limit)
  {
    if limit >= 3 {
      forall t | WellFormed(t) ensures NeverRefused(t, limit) {
        forall es ensures !RefusedBy(t, limit, es) {
          if Runs(t, Open(limit), es) { ClientShowsSlice(t, limit, es); }
        }
      }
    } else if limit == 2 {
      var t: seq<byte> := [0xF0, 0x9F, 0x98, 0x80];
      assert Scan(t) == Char(|t|) && t[|t|..] == [];
      assert WellFormed(t);
      LongRunIsRefused(t, limit, 1);
    } else {
      var t: seq<byte> := [0xE2, 0x82, 0xAC];
      assert Scan(t) == Char(|t|) && t[|t|..] == [];
      assert WellFormed(t);
      LongRunIsRefused(t, limit, 1);
    }
  }
}
