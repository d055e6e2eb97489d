/** UTF-8 as section 4 of RFC 3629 defines it, and the decoder the standard library runs over
    byte strings: with the "replace" policy, and incrementally, withholding a sequence that
    may still be completed, or could be the first two bytes of an encoded surrogate. */
module Utf8 {

  type byte = x: int | 0 <= x < 256

  /** b & 0xC0 == 0x80 */
  predicate Continuation(b: byte) { 0x80 <= b <= 0xBF }

  /** Length of the sequence a byte starts; 0 when it cannot start one. */
  function Width(b: byte): nat {
    if b <= 0x7F then 1
    else if 0xC2 <= b <= 0xDF then 2
    else if 0xE0 <= b <= 0xEF then 3
    else if 0xF0 <= b <= 0xF4 then 4
    else 0
  }

  /** The second byte excludes overlong forms, surrogates and values above U+10FFFF. */
  predicate SecondOk(lead: byte, b: byte) {
    if lead == 0xE0 then 0xA0 <= b <= 0xBF
    else if lead == 0xED then 0x80 <= b <= 0x9F
    else if lead == 0xF0 then 0x90 <= b <= 0xBF
    else if lead == 0xF4 then 0x80 <= b <= 0x8F
    else Continuation(b)
  }

  /** What the decoder finds at the head of its input: a character of n bytes, n bytes that no
      character starts with, or the beginning of a character that the input cuts off. */
  datatype Unit = Char(n: nat) | Bad(n: nat) | Short

  function Scan(s: seq<byte>): (u: Unit)
    requires s != []
    ensures !u.Short? ==> 1 <= u.n <= |s|
    ensures u.Short? ==> |s| <= 3
  {
    var w := Width(s[0]);
    if w == 0 then Bad(1)
    else if w == 1 then Char(1)
    else if |s| < 2 then Short
    else if !SecondOk(s[0], s[1]) then Bad(1)
    else if w == 2 then Char(2)
    else if |s| < 3 then Short
    else if !Continuation(s[2]) then Bad(2)
    else if w == 3 then Char(3)
    else if |s| < 4 then Short
    else if !Continuation(s[3]) then Bad(3)
    else Char(4)
  }

  /** All but the first byte of a unit are continuation bytes. */
  lemma UnitShape(s: seq<byte>)
    requires s != []
    ensures var u := Scan(s);
            && (!u.Short? ==> forall i :: 1 <= i < u.n ==> Continuation(s[i]))
            && (u.Short? ==> Width(s[0]) >= 2 && forall i :: 1 <= i < |s| ==> Continuation(s[i]))
            && (u.Char? ==> u.n == Width(s[0]))
  {
  }

  /** Decoded text: scalar values, and replacement characters the decoder put in. */
  datatype Glyph = Scalar(v: int) | Replacement

  function Join(high: int, low: int): int { high * 64 + (low - 0x80) }

  function Value(s: seq<byte>): int {
    match |s|
    case 1 => s[0]
    case 2 => Join(s[0] as int - 0xC0, s[1])
    case 3 => Join(Join(s[0] as int - 0xE0, s[1]), s[2])
    case 4 => Join(Join(Join(s[0] as int - 0xF0, s[1]), s[2]), s[3])
    case _ => 0
  }

  /** s.decode("utf-8", "replace") */
  function Decode(s: seq<byte>): seq<Glyph> {
    if s == [] then []
    else match Scan(s)
      case Char(n) => [Scalar(Value(s[..n]))] + Decode(s[n..])
      case Bad(n) => [Replacement] + Decode(s[n..])
      case Short => [Replacement]
  }

  /** The first two bytes of what would be a surrogate, at the end of the input: no character
      starts so, but the incremental decoder waits for the third byte before it says so. */
  predicate HalfSurrogate(s: seq<byte>) {
    |s| == 2 && s[0] == 0xED && 0xA0 <= s[1] <= 0xBF
  }

  /** What an incremental decoder withholds as a whole. */
  predicate Incomplete(s: seq<byte>) {
    s != [] && (Scan(s).Short? || HalfSurrogate(s))
  }

  /** Bytes an incremental decoder keeps back after it has been given s. */
  function Pending(s: seq<byte>): (p: nat)
    ensures p <= |s| && p <= 3
  {
    if s == [] then 0
    else if Incomplete(s) then |s|
    else Pending(s[Scan(s).n..])
  }

  predicate WellFormed(s: seq<byte>) {
    s == [] || (Scan(s).Char? && WellFormed(s[Scan(s).n..]))
  }

  // ----- The encoding itself, to pin the decoder down -----

  predicate IsScalar(v: int) { 0 <= v <= 0xD7FF || 0xE000 <= v <= 0x10FFFF }

  function Encode(v: int): (s: seq<byte>)
    requires IsScalar(v)
    ensures 1 <= |s| <= 4
  {
    if v <= 0x7F then [v]
    else if v <= 0x7FF then [0xC0 + v / 64, 0x80 + v % 64]
    else
      var h := v / 64;
      if v <= 0xFFFF then [0xE0 + h / 64, 0x80 + h % 64, 0x80 + v % 64]
      else [0xF0 + h / 64 / 64, 0x80 + h / 64 % 64, 0x80 + h % 64, 0x80 + v % 64]
  }

  function EncodeText(text: seq<int>): seq<byte>
    requires forall v :: v in text ==> IsScalar(v)
  {
    if text == [] then [] else Encode(text[0]) + EncodeText(text[1..])
  }

  lemma ScanEncoded(v: int)
    requires IsScalar(v)
    ensures Scan(Encode(v)) == Char(|Encode(v)|)
  {
    var s := Encode(v);
    if 0x7FF < v <= 0xFFFF {
      var h := v / 64;
      assert h / 64 == 0 ==> h % 64 >= 0x20;
      assert h / 64 == 0xD ==> h % 64 <= 0x1F;
    } else if 0xFFFF < v {
      var g := v / 64 / 64;
      assert g / 64 == 0 ==> g % 64 >= 0x10;
      assert g / 64 == 4 ==> g % 64 <= 0xF;
    }
  }

  lemma JoinSplit(v: int)
    requires 0 <= v
    ensures Join(v / 64, 0x80 + v % 64) == v
  {
  }

  lemma ValueEncoded(v: int)
    requires IsScalar(v)
    ensures Value(Encode(v)) == v
  {
    JoinSplit(v);
    JoinSplit(v / 64);
    JoinSplit(v / 64 / 64);
  }

  function Scalars(text: seq<int>): seq<Glyph> {
    if text == [] then [] else [Scalar(text[0])] + Scalars(text[1..])
  }

  /** Decoding undoes encoding, and encoded text is well-formed. */
  lemma {:induction false} DecodeEncoded(text: seq<int>)
    requires forall v :: v in text ==> IsScalar(v)
    ensures WellFormed(EncodeText(text))
    ensures Decode(EncodeText(text)) == Scalars(text)
  {
    if text != [] {
      var head, rest := Encode(text[0]), EncodeText(text[1..]);
      ScanEncoded(text[0]);
      ValueEncoded(text[0]);
      ScanPrefix(head, rest);
      assert (head + rest)[..|head|] == head && (head + rest)[|head|..] == rest;
      DecodeEncoded(text[1..]);
    }
  }

  lemma SplitJoin(high: int, low: int)
    requires 0 <= high && 0x80 <= low <= 0xBF
    ensures Join(high, low) / 64 == high && Join(high, low) % 64 == low - 0x80
  {
  }

  lemma EncodeTwo(t: seq<byte>)
    requires |t| == 2 && Scan(t) == Char(2)
    ensures IsScalar(Value(t)) && Encode(Value(t)) == t
  {
    SplitJoin(t[0] as int - 0xC0, t[1]);
  }

  lemma EncodeThree(t: seq<byte>)
    requires |t| == 3 && Scan(t) == Char(3)
    ensures IsScalar(Value(t)) && Encode(Value(t)) == t
  {
    SplitJoin(t[0] as int - 0xE0, t[1]);
    SplitJoin(Join(t[0] as int - 0xE0, t[1]), t[2]);
  }

  lemma EncodeFour(t: seq<byte>)
    requires |t| == 4 && Scan(t) == Char(4)
    ensures IsScalar(Value(t)) && Encode(Value(t)) == t
  {
    var h := Join(t[0] as int - 0xF0, t[1]);
    SplitJoin(t[0] as int - 0xF0, t[1]);
    SplitJoin(h, t[2]);
    SplitJoin(Join(h, t[2]), t[3]);
  }

  /** A character is the encoding of the value the decoder reads from it. */
  lemma EncodeScanned(t: seq<byte>)
    requires t != [] && Scan(t) == Char(|t|)
    ensures IsScalar(Value(t)) && Encode(Value(t)) == t
  {
    if |t| == 2 {
      EncodeTwo(t);
    } else if |t| == 3 {
      EncodeThree(t);
    } else if |t| == 4 {
      EncodeFour(t);
    }
  }

  // ----- The decoder on concatenations -----

  lemma ScanPrefix(a: seq<byte>, b: seq<byte>)
    requires a != [] && !Scan(a).Short?
    ensures Scan(a + b) == Scan(a)
  {
    assert (a + b)[0] == a[0];
    if |a| > 1 { assert (a + b)[1] == a[1]; }
    if |a| > 2 { assert (a + b)[2] == a[2]; }
    if |a| > 3 { assert (a + b)[3] == a[3]; }
  }

  lemma {:induction false} WellFormedConcat(a: seq<byte>, b: seq<byte>)
    requires WellFormed(a)
    ensures Decode(a + b) == Decode(a) + Decode(b)
    ensures WellFormed(a + b) <==> WellFormed(b)
  {
    hide Scan, Value;
    if a == [] {
      assert a + b == b;
    } else {
      ScanPrefix(a, b);
      var n := Scan(a).n;
      assert (a + b)[n..] == a[n..] + b && (a + b)[..n] == a[..n];
      WellFormedConcat(a[n..], b);
    }
  }

  lemma {:induction false} WellFormedHasNoReplacement(s: seq<byte>)
    requires WellFormed(s)
    ensures Replacement !in Decode(s)
  {
    hide Scan;
    if s != [] { WellFormedHasNoReplacement(s[Scan(s).n..]); }
  }

  lemma CompletePrefix(a: seq<byte>, b: seq<byte>)
    requires a != [] && !Incomplete(a)
    ensures !Incomplete(a + b) && Scan(a + b) == Scan(a)
  {
    ScanPrefix(a, b);
    if |a| == 1 {
      assert (a + b)[0] == a[0];
    } else {
      assert (a + b)[1] == a[1];
      assert |a + b| == 2 ==> a + b == a;
    }
  }

  /** Feeding an incremental decoder a second chunk is the same as giving it both at once: it
      holds back what the second chunk, put after what it held back, leaves incomplete. */
  lemma {:induction false} PendingIncremental(a: seq<byte>, b: seq<byte>)
    ensures Pending(a + b) == Pending(a[|a| - Pending(a)..] + b)
  {
    hide Scan, HalfSurrogate;
    if a != [] && !Incomplete(a) {
      var n := Scan(a).n;
      CompletePrefix(a, b);
      assert (a + b)[n..] == a[n..] + b;
      assert a[n..][|a[n..]| - Pending(a)..] == a[|a| - Pending(a)..];
      PendingIncremental(a[n..], b);
    }
  }

  // ----- The last four bytes decide what is pending -----

  /** A leading byte and at most two continuation bytes. */
  lemma IncompleteBytes(s: seq<byte>)
    requires Incomplete(s)
    ensures |s| <= 3 && Width(s[0]) >= 2
    ensures forall i :: 1 <= i < |s| ==> Continuation(s[i])
  {
    UnitShape(s);
  }

  lemma {:induction false} PendingIsIncomplete(s: seq<byte>)
    ensures Pending(s) > 0 ==> Incomplete(s[|s| - Pending(s)..])
  {
    hide Scan, HalfSurrogate;
    if s != [] && !Incomplete(s) {
      var n := Scan(s).n;
      PendingIsIncomplete(s[n..]);
      assert s[n..][|s[n..]| - Pending(s)..] == s[|s| - Pending(s)..];
    }
  }

  lemma {:induction false} IncompleteIsPending(s: seq<byte>, q: nat)
    requires q < |s| && Incomplete(s[q..])
    ensures Pending(s) == |s| - q
  {
    hide Scan, HalfSurrogate;
    assert Width(s[q]) >= 2 by {
      IncompleteBytes(s[q..]);
      assert s[q..][0] == s[q];
    }
    if q == 0 {
      assert s[q..] == s;
    } else {
      if Incomplete(s) { IncompleteBytes(s); }
      UnitShape(s);
      var n := Scan(s).n;
      assert n <= q;
      assert s[n..][q - n..] == s[q..];
      IncompleteIsPending(s[n..], q - n);
    }
  }

  function LastFour(s: seq<byte>): seq<byte> {
    if |s| <= 4 then s else s[|s| - 4..]
  }

  lemma TailOfTail(s: seq<byte>, p: nat)
    requires p <= |LastFour(s)|
    ensures LastFour(s)[|LastFour(s)| - p..] == s[|s| - p..]
  {}

  /** For any bytes at all, looking at the last four is as good as decoding everything. */
  lemma TailDecides(s: seq<byte>)
    ensures Pending(LastFour(s)) == Pending(s)
  {
    hide Scan, Incomplete;
    var t := LastFour(s);
    var p, q := Pending(s), Pending(t);
    PendingIsIncomplete(s);
    PendingIsIncomplete(t);
    if p > 0 {
      IncompleteBytes(s[|s| - p..]);
      TailOfTail(s, p);
      IncompleteIsPending(t, |t| - p);
    } else if q > 0 {
      TailOfTail(s, q);
      IncompleteIsPending(s, |s| - q);
    }
  }

  // ----- Character boundaries of well-formed text -----

  predicate Boundary(s: seq<byte>, i: int) {
    i == |s| || (0 <= i < |s| && !Continuation(s[i]))
  }

  /** A character found at the head is found again in any piece that holds it. */
  lemma ScanCut(s: seq<byte>, m: nat)
    requires s != [] && Scan(s).Char? && 1 <= m <= |s|
    ensures if m >= Scan(s).n then Scan(s[..m]) == Scan(s) else Scan(s[..m]) == Short
  {
  }

  lemma {:induction false} SplitAtBoundary(s: seq<byte>, i: nat)
    requires WellFormed(s) && Boundary(s, i)
    ensures WellFormed(s[..i]) && WellFormed(s[i..])
  {
    hide Scan;
    if i == 0 {
      assert s[i..] == s;
    } else {
      var n := Scan(s).n;
      UnitShape(s);
      assert i >= n;
      var rest := s[n..];
      assert rest[i - n..] == s[i..] && rest[..i - n] == s[..i][n..];
      assert i < |s| ==> rest[i - n] == s[i];
      SplitAtBoundary(rest, i - n);
      ScanCut(s, i);
    }
  }

  lemma Slice(s: seq<byte>, i: nat, j: nat)
    requires WellFormed(s) && i <= j <= |s| && Boundary(s, i) && Boundary(s, j)
    ensures WellFormed(s[i..j])
  {
    hide Scan, WellFormed;
    SplitAtBoundary(s, i);
    SplitAtBoundary(s[i..], j - i);
    assert s[i..][..j - i] == s[i..j];
  }

  lemma {:induction false} AtMostThreeContinuations(s: seq<byte>, i: nat)
    requires WellFormed(s) && i + 4 <= |s|
    ensures exists k :: i <= k < i + 4 && !Continuation(s[k])
  {
    var n := Scan(s).n;
    UnitShape(s);
    if i == 0 {
      assert !Continuation(s[0]);
    } else if i >= n {
      AtMostThreeContinuations(s[n..], i - n);
      var k :| i - n <= k < i - n + 4 && !Continuation(s[n..][k]);
      assert !Continuation(s[n + k]);
    } else {
      assert !Continuation(s[n..][0]);
      assert !Continuation(s[n]);
    }
  }

  /** The last boundary at or before n. */
  function LastBoundary(s: seq<byte>, n: nat): (b: nat)
    requires n <= |s|
    ensures b <= n
    ensures b == 0 || Boundary(s, b)
    ensures forall i :: b < i <= n ==> !Boundary(s, i)
  {
    if n == 0 || Boundary(s, n) then n else LastBoundary(s, n - 1)
  }

  /** Cut a well-formed text anywhere: what the decoder holds back is what follows the last
      boundary. */
  lemma {:induction false} PendingAfterBoundary(s: seq<byte>, a: nat, n: nat)
    requires WellFormed(s) && a <= n <= |s| && Boundary(s, a)
    ensures Pending(s[a..n]) == n - LastBoundary(s, n)
    decreases n - a
  {
    hide Scan, WellFormed, HalfSurrogate;
    if a < n {
      UnitAt(s, a, n);
      var w := Scan(s[a..]).n;
      if a + w <= n {
        CharIsComplete(s[a..n]);
        assert s[a..n][w..] == s[a + w..n];
        PendingAfterBoundary(s, a + w, n);
      }
    }
  }

  lemma CharIsComplete(s: seq<byte>)
    requires s != [] && Scan(s).Char?
    ensures !Incomplete(s)
  {}

  /** The character at a boundary, seen through a cut at n. */
  lemma UnitAt(s: seq<byte>, a: nat, n: nat)
    requires WellFormed(s) && a < n <= |s| && Boundary(s, a)
    ensures Scan(s[a..]).Char?
    ensures var w := Scan(s[a..]).n;
            if a + w <= n then Scan(s[a..n]) == Char(w) && Boundary(s, a + w)
            else Scan(s[a..n]) == Short && LastBoundary(s, n) == a
  {
    SplitAtBoundary(s, a);
    var rest := s[a..];
    var w := Scan(rest).n;
    assert s[a..n] == rest[..n - a];
    ScanCut(rest, n - a);
    NextBoundary(rest);
    assert a + w < |s| ==> s[a + w] == rest[w];
    UnitShape(rest);
    if n < a + w {
      forall i | a < i <= n ensures !Boundary(s, i) {
        assert Continuation(rest[i - a]);
      }
    }
  }

  lemma NextBoundary(s: seq<byte>)
    requires WellFormed(s) && s != []
    ensures Boundary(s, Scan(s).n)
  {
    var rest := s[Scan(s).n..];
    assert rest != [] ==> !Continuation(rest[0]);
  }
}
