/** What the decoder makes of bytes that are no text, said through the encoding alone: one replacement
    character for each byte that no character starts with, and for each beginning of a character that
    the next byte does not continue, as section 3.9 of the Unicode Standard recommends. */
module BrokenText {
  import opened Utf8

  /** Some character starts with these bytes. */
  ghost predicate Opens(t: seq<byte>) {
    exists v :: IsScalar(v) && t <= Encode(v)
  }

  ghost predicate Whole(t: seq<byte>) {
    exists v :: IsScalar(v) && t == Encode(v)
  }

  /** One byte that starts no character, or the longest beginning of one that is there. */
  ghost predicate Broken(b: seq<byte>, c: seq<byte>) {
    && b != [] && !Whole(b)
    && (if Opens(b) then c == [] || !Opens(b + [c[0]]) else |b| == 1)
  }

  // ----- Beginnings of characters, as the decoder sees them -----

  /** The least second byte that may follow. */
  function Second(lead: byte): byte {
    if lead == 0xE0 then 0xA0 else if lead == 0xF0 then 0x90 else 0x80
  }

  /** A character that starts with the given bytes. */
  function Completed(t: seq<byte>): seq<byte>
    requires t != []
  {
    var two := if |t| == 1 then t + [Second(t[0])] else t;
    if Width(t[0]) <= |two| then two
    else if Width(t[0]) == |two| + 1 then two + [0x80]
    else two + [0x80, 0x80]
  }

  lemma CompletedIsCharacter(t: seq<byte>)
    requires t != [] && Scan(t).Short?
    ensures t <= Completed(t) && t != Completed(t) && Scan(Completed(t)) == Char(|Completed(t)|)
  {
    var u := Completed(t);
    assert u[0] == t[0];
    if |t| > 1 { assert u[1] == t[1]; }
    if |t| > 2 { assert u[2] == t[2]; }
  }

  lemma WholeIff(t: seq<byte>)
    requires t != []
    ensures Whole(t) <==> Scan(t) == Char(|t|)
  {
    if Whole(t) {
      var v :| IsScalar(v) && t == Encode(v);
      ScanEncoded(v);
    }
    if Scan(t) == Char(|t|) {
      EncodeScanned(t);
      assert t == Encode(Value(t));
    }
  }

  lemma OpensIff(t: seq<byte>)
    requires t != []
    ensures Opens(t) <==> Scan(t).Short? || Scan(t) == Char(|t|)
  {
    if Opens(t) {
      var v :| IsScalar(v) && t <= Encode(v);
      ScanEncoded(v);
      assert t == Encode(v)[..|t|];
      ScanCut(Encode(v), |t|);
    }
    if Scan(t).Short? {
      CompletedIsCharacter(t);
      EncodeScanned(Completed(t));
      assert t <= Encode(Value(Completed(t)));
    } else if Scan(t) == Char(|t|) {
      EncodeScanned(t);
      assert t <= Encode(Value(t));
    }
  }

  /** One byte more decides whether a beginning goes on. */
  lemma ScanOneMore(b: seq<byte>, c: seq<byte>)
    requires b != [] && c != [] && Scan(b).Short?
    ensures var t := b + [c[0]];
            Scan(t).Short? || Scan(t) == Char(|t|) || (Scan(t) == Bad(|b|) && Scan(b + c) == Bad(|b|))
  {
    var t, s := b + [c[0]], b + c;
    assert s[0] == b[0] && t[0] == b[0] && s[|b|] == c[0] && t[|b|] == c[0];
    if |b| > 1 { assert s[1] == b[1] && t[1] == b[1]; }
    if |b| > 2 { assert s[2] == b[2] && t[2] == b[2]; }
  }

  lemma BrokenIsBad(b: seq<byte>, c: seq<byte>)
    requires Broken(b, c)
    ensures b != [] && if Scan(b).Short? && c == [] then Scan(b + c) == Short else Scan(b + c) == Bad(|b|)
  {
    WholeIff(b);
    OpensIff(b);
    if Opens(b) {
      if c == [] {
        assert b + c == b;
      } else {
        OpensIff(b + [c[0]]);
        ScanOneMore(b, c);
      }
    } else {
      assert (b + c)[0] == b[0];
    }
  }

  // ----- The main results -----

  lemma {:induction false} ReplacementIff(s: seq<byte>)
    ensures Replacement in Decode(s) <==> !WellFormed(s)
  {
    hide Scan, Value;
    if s != [] && !Scan(s).Short? { ReplacementIff(s[Scan(s).n..]); }
  }

  /** What is broken becomes one replacement character, wherever it stands after text. */
  lemma BrokenIsReplaced(a: seq<byte>, b: seq<byte>, c: seq<byte>)
    requires WellFormed(a) && Broken(b, c)
    ensures Decode(a + b + c) == Decode(a) + [Replacement] + Decode(c)
  {
    hide Scan, Broken, Value;
    WellFormedConcat(a, b + c);
    assert a + b + c == a + (b + c);
    BrokenIsBad(b, c);
    BrokenHead(b, c);
    assert Decode(a) + ([Replacement] + Decode(c)) == Decode(a) + [Replacement] + Decode(c);
  }

  lemma BrokenHead(b: seq<byte>, c: seq<byte>)
    requires b != [] && (if Scan(b).Short? && c == [] then Scan(b + c) == Short else Scan(b + c) == Bad(|b|))
    ensures Decode(b + c) == [Replacement] + Decode(c)
  {
    hide Scan, Value;
    assert (b + c)[|b|..] == c;
    assert [Replacement] + [] == [Replacement];
  }

  /** Bytes that are no text have a first place that is broken, so that the last result determines the
      decoding of everything. */
  lemma {:induction false} FirstBroken(s: seq<byte>) returns (a: seq<byte>, b: seq<byte>, c: seq<byte>)
    requires !WellFormed(s)
    ensures s == a + b + c && WellFormed(a) && Broken(b, c)
  {
    hide Scan, Broken;
    var u := Scan(s);
    if u.Char? {
      var rest;
      rest, b, c := FirstBroken(s[u.n..]);
      a := s[..u.n] + rest;
      HeadAndText(s[..u.n], rest, s);
      assert s[..u.n] + (rest + b + c) == s[..u.n] + rest + b + c;
    } else {
      a, b := [], if u.Short? then s else s[..u.n];
      c := s[|b|..];
      assert s == b + c && a + b == b;
      BadIsBroken(s, b, c);
    }
  }

  lemma HeadAndText(h: seq<byte>, a: seq<byte>, s: seq<byte>)
    requires s != [] && Scan(s) == Char(|h|) && h <= s && WellFormed(a)
    ensures WellFormed(h + a)
  {
    assert h == s[..|h|];
    ScanCut(s, |h|);
    assert h[|h|..] == [];
    WellFormedConcat(h, a);
  }

  lemma BadIsBroken(s: seq<byte>, b: seq<byte>, c: seq<byte>)
    requires s != [] && s == b + c && (if Scan(s).Short? then b == s else Scan(s) == Bad(|b|))
    ensures Broken(b, c)
  {
    WholeIff(b);
    OpensIff(b);
    assert s[0] == b[0];
    if |b| > 1 { assert s[1] == b[1]; }
    if |b| > 2 { assert s[2] == b[2]; }
    if c != [] {
      var t := b + [c[0]];
      OpensIff(t);
      assert s[|b|] == c[0] && t[|b|] == c[0] && t[0] == s[0];
      if |b| > 1 { assert t[1] == s[1]; }
      if |b| > 2 { assert t[2] == s[2]; }
    }
  }
}
