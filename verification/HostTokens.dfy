/** What the pieces of a known-hosts file mean: the token of a host and port, the names a line lists,
    the lines of a text, and what a pin refuses. */
module HostTokens {
  import opened KnownHosts
  import opened Text
  import Utf8

  // ----- Tokens -----

  /** A decimal numeral, read from the left. */
  function Number(s: string, acc: int): int {
    if s == "" then acc else Number(s[1..], 10 * acc + (s[0] as int - '0' as int))
  }

  lemma {:induction false} NumberAppend(s: string, c: char, acc: int)
    ensures Number(s + [c], acc) == 10 * Number(s, acc) + (c as int - '0' as int)
  {
    var t := s + [c];
    if s == "" {
      assert t[1..] == "";
    } else {
      assert t[1..] == s[1..] + [c];
      NumberAppend(s[1..], c, 10 * acc + (s[0] as int - '0' as int));
    }
  }

  lemma {:induction false} DecimalReads(n: nat)
    ensures Number(Decimal(n), 0) == n
    ensures n > 0 ==> Decimal(n)[0] != '0'
  {
    if n < 10 {
      assert Decimal(n)[1..] == "";
    } else {
      DecimalReads(n / 10);
      NumberAppend(Decimal(n / 10), ('0' as int + n % 10) as char, 0);
    }
  }

  predicate Digits(s: string) { s != "" && forall i :: 0 <= i < |s| ==> '0' <= s[i] <= '9' }

  /** There is a token exactly for a sound host and a port in range: the host itself for port 22 only,
      and otherwise the host in brackets, a colon, and the port in decimal without a leading zero. */
  lemma TokenIs(host: string, port: int)
    ensures HostToken(host, port).Some? <==> HostOk(host) && 1 <= port <= 65535
    ensures HostToken(host, port).Some? ==>
              var token := HostToken(host, port).value;
              && (token == host <==> port == 22)
              && (port != 22 ==> var k := |host| + 3;
                    && |token| > k && token[..k] == "[" + host + "]:"
                    && Digits(token[k..]) && token[k] != '0' && Number(token[k..], 0) == port)
  {
    if HostToken(host, port).Some? && port != 22 {
      var token, k := HostToken(host, port).value, |host| + 3;
      DecimalReads(port);
      assert token[..k] == "[" + host + "]:" && token[k..] == Decimal(port);
      assert token[k] == token[k..][0];
    }
  }

  lemma BracketEnds(h: string, d: string)
    ensures ("[" + h + "]:" + d)[|h| + 2] == ':'
  {}

  lemma DigitAfter(h: string, d: string, i: nat)
    requires Digits(d) && |h| + 3 <= i < |h| + 3 + |d|
    ensures ("[" + h + "]:" + d)[i] != ':'
  {
    assert ("[" + h + "]:" + d)[i] == d[i - |h| - 3];
  }

  lemma LongerDigits(g: string, h: string, d: string, e: string)
    requires Digits(e) && |d| < |e| && |g| + |d| == |h| + |e|
    ensures "[" + g + "]:" + d != "[" + h + "]:" + e
  {
    BracketEnds(g, d);
    DigitAfter(h, e, |g| + 2);
  }

  lemma BracketsApart(g: string, h: string, d: string, e: string)
    requires "[" + g + "]:" + d == "[" + h + "]:" + e && Digits(d) && Digits(e) && |d| <= |e|
    ensures g == h && d == e
  {
    var s, t := "[" + g + "]:" + d, "[" + h + "]:" + e;
    assert |s| == |g| + 3 + |d| && |t| == |h| + 3 + |e|;
    if |d| < |e| {
      LongerDigits(g, h, d, e);
    } else {
      assert g == s[1..|g| + 1] && h == t[1..|h| + 1] && d == s[|g| + 3..] && e == t[|h| + 3..];
    }
  }

  /** Two places have the same token exactly if they are the same, or if one is on port 22 and its host
      is spelt like the token of the other. */
  lemma SameTokenIff(host: string, port: int, host': string, port': int)
    requires HostToken(host, port).Some? && HostToken(host', port').Some?
    ensures HostToken(host, port) == HostToken(host', port') <==>
              || (host, port) == (host', port')
              || (port == 22 && port' != 22 && HostToken(host', port') == Some(host))
              || (port' == 22 && port != 22 && HostToken(host, port) == Some(host'))
  {
    if port != 22 && port' != 22 && HostToken(host, port) == HostToken(host', port') {
      var d, d' := Decimal(port), Decimal(port');
      if |d| <= |d'| { BracketsApart(host, host', d, d'); } else { BracketsApart(host', host, d', d); }
      DecimalReads(port);
      DecimalReads(port');
    }
  }

  // ----- Lines and the names they list -----

  function Joined(names: seq<string>): string
    requires names != []
  {
    if |names| == 1 then names[0] else names[0] + "," + Joined(names[1..])
  }

  lemma {:induction false} CommaIs(s: string, k: nat)
    requires k <= |s| && (forall i :: 0 <= i < k ==> s[i] != ',') && (k < |s| ==> s[k] == ',')
    ensures Comma(s) == k
  {
    if k > 0 { CommaIs(s[1..], k - 1); }
  }

  /** A field lists exactly the names between its commas. */
  lemma {:induction false} ListsNames(names: seq<string>, token: string)
    requires names != [] && forall n :: n in names ==> ',' !in n
    ensures Lists(Joined(names), token) <==> token in names
  {
    var s, k := Joined(names), |names[0]|;
    assert s[..k] == names[0];
    forall i | 0 <= i < k ensures s[i] != ',' { assert s[i] == names[0][i] && names[0][i] in names[0]; }
    CommaIs(s, k);
    if |names| > 1 {
      assert s[k + 1..] == Joined(names[1..]);
      ListsNames(names[1..], token);
      assert token in names <==> token == names[0] || token in names[1..];
    }
  }

  /** The first field of a line is its first word. */
  lemma {:induction false} FirstFieldIsWord(blank: string, word: string, rest: string)
    requires forall i :: 0 <= i < |blank| ==> Space(blank[i])
    requires word != "" && forall i :: 0 <= i < |word| ==> !Space(word[i])
    requires rest == "" || Space(rest[0])
    ensures FirstField(blank + word + rest) == word
  {
    var s := blank + word + rest;
    if blank == "" {
      assert s == word + rest && s[0] == word[0];
      LeadingWord(word, rest);
    } else {
      assert s[1..] == blank[1..] + word + rest;
      FirstFieldIsWord(blank[1..], word, rest);
    }
  }

  lemma {:induction false} LeadingWord(word: string, rest: string)
    requires (forall i :: 0 <= i < |word| ==> !Space(word[i])) && (rest == "" || Space(rest[0]))
    ensures Leading(word + rest) == word
  {
    if word == "" {
      assert word + rest == rest;
    } else {
      assert (word + rest)[1..] == word[1..] + rest;
      LeadingWord(word[1..], rest);
    }
  }

  /** A line ends at its line feed, its carriage return, or the two together. */
  lemma LineByLine(line: string, end: string, rest: string)
    requires OneLine(line) && end in ["\n", "\r", "\r\n"]
    requires end == "\r" ==> rest == "" || rest[0] != '\n'
    ensures Lines(line + end + rest) == [line] + Lines(rest)
  {
    var s := line + end + rest;
    assert s[..|line|] == line && s[|line|] == end[0];
    LineEndIs(s, |line|);
    assert |end| == 2 ==> s[|line| + 1] == '\n';
    assert end == "\r" && rest != "" ==> s[|line| + 1] == rest[0];
    assert s[|line| + |end|..] == rest;
  }

  lemma LastLine(line: string)
    requires OneLine(line) && line != ""
    ensures Lines(line) == [line]
  {
    assert line[..|line|] == line && line[|line|..] == "";
    LineEndIs(line, |line|);
  }

  function CodePoints(s: string): (r: seq<int>)
    ensures |r| == |s| && forall i :: 0 <= i < |r| ==> r[i] == s[i] as int
  {
    seq(|s|, i requires 0 <= i < |s| => s[i] as int)
  }

  /** The size of a file is the length of its encoding. */
  lemma {:induction false} SizeIsEncoded(s: string)
    ensures forall v :: v in CodePoints(s) ==> Utf8.IsScalar(v)
    ensures Size(s) == |Utf8.EncodeText(CodePoints(s))|
  {
    if s != "" {
      assert CodePoints(s)[1..] == CodePoints(s[1..]);
      SizeIsEncoded(s[1..]);
    }
  }

  // ----- What a pin refuses, and what it accepts -----

  /** A pin is refused unless the fingerprint is the expected one and key type, host and port are
      sound; and then only because the file is too long or has another key for the place. */
  lemma PinRefusedIff(fp: string -> Option<string>, file: Option<string>, p: Pin)
    ensures fp(p.keyData) != Some(p.expected) ==> PinKey(fp, file, p) == Refused
    ensures !TypeOk(p.keyType) ==> PinKey(fp, file, p) == Refused
    ensures !HostOk(p.host) || !(1 <= p.port <= 65535) ==> PinKey(fp, file, p) == Refused
    ensures fp(p.keyData) == Some(p.expected) && TypeOk(p.keyType) && HostToken(p.host, p.port).Some? ==>
              var token := HostToken(p.host, p.port).value;
              var lines := if file.Some? then Lines(file.value) else [];
              var pinned := exists l :: l in lines && IsEntry(l, token);
              PinKey(fp, file, p) == Refused <==>
                || (file.Some? && Size(file.value) > 1024 * 1024)
                || (pinned && token + " " + p.keyType + " " + p.keyData !in lines)
  {
    if HostToken(p.host, p.port).Some? {
      AnyEntry(if file.Some? then Lines(file.value) else [], HostToken(p.host, p.port).value);
    }
  }

  lemma {:induction false} AnyEntry(lines: seq<string>, token: string)
    ensures Entries(lines, token) > 0 <==> exists l :: l in lines && IsEntry(l, token)
  {
    if lines != [] {
      AnyEntry(lines[1..], token);
      assert forall l :: l in lines <==> l == lines[0] || l in lines[1..];
    }
  }
}
