/** The pinned host keys: a text file to which verified keys are appended, one line each. */
module KnownHosts {
  import opened Text

  datatype Option<T> = None | Some(value: T)

  const MAX_SIZE := 0x100000

  // ----- Text: lines, fields, names -----

  predicate Newline(c: char) { c == '\n' || c == '\r' }

  function LineEnd(s: string): (k: nat)
    ensures k <= |s|
    ensures forall i :: 0 <= i < k ==> !Newline(s[i])
    ensures k < |s| ==> Newline(s[k])
  {
    if s == "" || Newline(s[0]) then 0 else 1 + LineEnd(s[1..])
  }

  /** Where the next line starts: a carriage return and a line feed end one line together. */
  function NextLine(s: string): (k: nat)
    requires s != ""
    ensures 0 < k <= |s|
  {
    var e := LineEnd(s);
    if e == |s| then e
    else if s[e] == '\r' && e + 1 < |s| && s[e + 1] == '\n' then e + 2
    else e + 1
  }

  function Lines(s: string): seq<string> {
    if s == "" then [] else [s[..LineEnd(s)]] + Lines(s[NextLine(s)..])
  }

  /** The first of a line's white-space separated fields. */
  function FirstField(s: string): string {
    if s == "" then "" else if Space(s[0]) then FirstField(s[1..]) else Leading(s)
  }

  function Leading(s: string): (r: string)
    ensures |r| <= |s|
  {
    if s == "" || Space(s[0]) then "" else [s[0]] + Leading(s[1..])
  }

  /** token in field.split(",") */
  predicate Lists(field: string, token: string) {
    var k := Comma(field);
    field[..k] == token || (k < |field| && Lists(field[k + 1..], token))
  }

  function Comma(s: string): (k: nat)
    ensures k <= |s|
    ensures forall i :: 0 <= i < k ==> s[i] != ','
    ensures k < |s| ==> s[k] == ','
  {
    if s == "" || s[0] == ',' then 0 else 1 + Comma(s[1..])
  }

  predicate IsEntry(line: string, token: string) {
    FirstField(line) != "" && Lists(FirstField(line), token)
  }

  function Entries(lines: seq<string>, token: string): nat {
    if lines == [] then 0 else (if IsEntry(lines[0], token) then 1 else 0) + Entries(lines[1..], token)
  }

  method HasHost(content: string, token: string) returns (found: bool)
    ensures found <==> Entries(Lines(content), token) > 0
  {
    var lines := Lines(content);
    found := false;
    for i := 0 to |lines|
      invariant !found && Entries(lines, token) == Entries(lines[i..], token)
    {
      if IsEntry(lines[i], token) {
        return true;
      }
    }
  }

  // ----- Host tokens and keys -----

  function Decimal(n: nat): (s: string)
    ensures s != "" && forall i :: 0 <= i < |s| ==> '0' <= s[i] <= '9'
  {
    (if n < 10 then "" else Decimal(n / 10)) + [('0' as int + n % 10) as char]
  }

  predicate HostOk(host: string) {
    && 0 < |host| <= 253
    && forall i :: 0 <= i < |host| ==> 33 <= host[i] as int < 128 && host[i] !in ",*?!|"
  }

  function HostToken(host: string, port: int): Option<string> {
    if !HostOk(host) || !(1 <= port <= 65535) then None
    else Some(if port == 22 then host else "[" + host + "]:" + Decimal(port))
  }

  predicate TypeChar(c: char) {
    'A' <= c <= 'Z' || 'a' <= c <= 'z' || '0' <= c <= '9' || c in "@._+-"
  }

  predicate TypeCore(t: string) {
    exists n :: 3 <= n <= 6 && n < |t|
      && t[..n] in ["ssh-", "ecdsa-", "sk-"]
      && forall i :: n <= i < |t| ==> TypeChar(t[i])
  }

  predicate TypeHasNewline(t: string) { t != "" && t[|t| - 1] == '\n' }

  /** The regular expression for key types; its `$` also matches before a final line feed. */
  predicate TypeOk(t: string) {
    TypeCore(if TypeHasNewline(t) then t[..|t| - 1] else t)
  }

  predicate KeyChars(k: string) {
    forall i :: 0 <= i < |k| ==>
      'A' <= k[i] <= 'Z' || 'a' <= k[i] <= 'z' || '0' <= k[i] <= '9' || k[i] in "+/="
  }

  /** Fingerprints: None when the key is not base64, which has only the characters above. */
  ghost predicate Fingerprints(fp: string -> Option<string>) {
    forall k :: fp(k).Some? ==> KeyChars(k)
  }

  // ----- Pinning -----

  datatype Pin = Pin(host: string, port: int, keyType: string, keyData: string, expected: string)

  datatype Outcome = Pinned(content: string) | AlreadyPinned | Refused

  function KeyLine(token: string, p: Pin): string { token + " " + p.keyType + " " + p.keyData }

  /** Bytes of the text in UTF-8. */
  function Size(s: string): nat {
    if s == "" then 0
    else
      var n := s[0] as int;
      (if n < 0x80 then 1 else if n < 0x800 then 2 else if n < 0x10000 then 3 else 4) + Size(s[1..])
  }

  function Appended(existing: string, line: string): string {
    Prefix(existing) + line + "\n"
  }

  /** `file` is the text of the file, if there is one. */
  function PinKey(fp: string -> Option<string>, file: Option<string>, p: Pin): Outcome {
    var existing := if file.Some? then file.value else "";
    var token := HostToken(p.host, p.port);
    if fp(p.keyData) != Some(p.expected) || !TypeOk(p.keyType) then Refused
    else if Size(existing) > MAX_SIZE || token.None? then Refused
    else if Entries(Lines(existing), token.value) > 0 then
      if KeyLine(token.value, p) in Lines(existing) then AlreadyPinned else Refused
    else Pinned(Appended(existing, KeyLine(token.value, p)))
  }

  class File {
    var content: Option<string>

    constructor ()
      ensures content == None
    {
      content := None;
    }

    method Pin(fp: string -> Option<string>, p: Pin) returns (r: Outcome)
      modifies this
      ensures r == PinKey(fp, old(content), p)
      ensures fp(p.keyData) != Some(p.expected) || !TypeOk(p.keyType) || !HostOk(p.host) ==> r == Refused
      ensures content == if r.Pinned? then Some(r.content) else old(content)
    {
      if fp(p.keyData) != Some(p.expected) { return Refused; }
      if !TypeOk(p.keyType) { return Refused; }
      var existing := "";
      var token := HostToken(p.host, p.port);
      if content.Some? {
        existing := content.value;
        if Size(existing) > MAX_SIZE { return Refused; }
        if token.None? { return Refused; }
        var found := HasHost(existing, token.value);
        if found {
          if KeyLine(token.value, p) in Lines(existing) { return AlreadyPinned; }
          return Refused;
        }
      }
      if token.None? { return Refused; }
      var text := existing;
      if existing != "" && existing[|existing| - 1] != '\n' {
        text := text + "\n";
      }
      text := text + KeyLine(token.value, p) + "\n";
      assert text == Appended(existing, KeyLine(token.value, p));
      content := Some(text);
      r := Pinned(text);
    }
  }

  // ----- How appending changes the lines -----

  predicate Closed(s: string) { s == "" || s[|s| - 1] == '\n' }

  predicate OneLine(s: string) { forall i :: 0 <= i < |s| ==> !Newline(s[i]) }

  lemma {:induction false} LineEndIs(s: string, k: nat)
    requires k <= |s| && OneLine(s[..k]) && (k < |s| ==> Newline(s[k]))
    ensures LineEnd(s) == k
  {
    if k > 0 {
      assert s[..k][0] == s[0];
      assert s[1..][..k - 1] == s[..k][1..];
      LineEndIs(s[1..], k - 1);
    }
  }

  lemma FirstLineKept(a: string, b: string)
    requires a != "" && Closed(a)
    ensures LineEnd(a + b) == LineEnd(a) && NextLine(a + b) == NextLine(a)
    ensures (a + b)[..LineEnd(a)] == a[..LineEnd(a)]
  {
    assert (a + b)[..LineEnd(a)] == a[..LineEnd(a)];
    LineEndIs(a + b, LineEnd(a));
  }

  lemma {:induction false} LinesConcat(a: string, b: string)
    requires Closed(a)
    ensures Lines(a + b) == Lines(a) + Lines(b)
  {
    if a == "" {
      assert a + b == b;
    } else {
      var n := NextLine(a);
      FirstLineKept(a, b);
      assert (a + b)[n..] == a[n..] + b;
      assert Closed(a[n..]);
      LinesConcat(a[n..], b);
      assert [a[..LineEnd(a)]] + (Lines(a[n..]) + Lines(b)) == ([a[..LineEnd(a)]] + Lines(a[n..])) + Lines(b);
    }
  }

  /** Closing the last line adds none. */
  lemma {:induction false} LinesClose(a: string)
    requires a != "" && !Closed(a)
    ensures Lines(a + "\n") == Lines(a)
  {
    var n := NextLine(a);
    FirstLineClosed(a);
    if n == |a| {
      assert (a + "\n")[|a| + 1..] == "" && a[n..] == "";
    } else {
      assert (a + "\n")[n..] == a[n..] + "\n";
      assert a[n..][|a[n..]| - 1] == a[|a| - 1];
      LinesClose(a[n..]);
    }
  }

  lemma FirstLineClosed(a: string)
    requires a != "" && !Closed(a)
    ensures LineEnd(a + "\n") == LineEnd(a) && (a + "\n")[..LineEnd(a)] == a[..LineEnd(a)]
    ensures NextLine(a + "\n") == if NextLine(a) == |a| then |a| + 1 else NextLine(a)
  {
    hide LineEnd, NextLine;
    LineEndClosed(a);
    NextAt(a + "\n", LineEnd(a));
    NextAt(a, LineEnd(a));
    CharKept(a, LineEnd(a));
    CharKept(a, LineEnd(a) + 1);
  }

  lemma LineEndClosed(a: string)
    ensures LineEnd(a + "\n") == LineEnd(a) && (a + "\n")[..LineEnd(a)] == a[..LineEnd(a)]
  {
    assert (a + "\n")[..LineEnd(a)] == a[..LineEnd(a)];
    LineEndIs(a + "\n", LineEnd(a));
  }

  lemma CharKept(a: string, i: nat)
    ensures i < |a| ==> (a + "\n")[i] == a[i]
    ensures i == |a| ==> (a + "\n")[i] == '\n'
  {}

  lemma NextAt(s: string, e: nat)
    requires s != "" && e == LineEnd(s)
    ensures NextLine(s) == if e == |s| then e
                           else if s[e] == '\r' && e + 1 < |s| && s[e + 1] == '\n' then e + 2 else e + 1
  {}

  lemma SingleLine(line: string)
    requires OneLine(line)
    ensures Lines(line + "\n") == [line]
  {
    var s := line + "\n";
    assert s[..|line|] == line;
    LineEndIs(s, |line|);
    assert s[|s|..] == "";
  }

  function Prefix(existing: string): string {
    if existing != "" && existing[|existing| - 1] != '\n' then existing + "\n" else existing
  }

  lemma PrefixLines(existing: string)
    ensures Closed(Prefix(existing)) && Lines(Prefix(existing)) == Lines(existing)
  {
    if existing != "" && existing[|existing| - 1] != '\n' { LinesClose(existing); }
  }

  lemma LinesAppended(existing: string, line: string)
    ensures Lines(Appended(existing, line)) == Lines(existing) + Lines(line + "\n")
  {
    PrefixLines(existing);
    LinesConcat(Prefix(existing), line + "\n");
    assert Appended(existing, line) == Prefix(existing) + (line + "\n");
  }

  lemma {:induction false} EntriesConcat(a: seq<string>, b: seq<string>, token: string)
    ensures Entries(a + b, token) == Entries(a, token) + Entries(b, token)
  {
    if a == [] {
      assert a + b == b;
    } else {
      assert (a + b)[1..] == a[1..] + b;
      EntriesConcat(a[1..], b, token);
    }
  }

  lemma {:induction false} EntryCounts(lines: seq<string>, line: string, token: string)
    requires line in lines && IsEntry(line, token)
    ensures Entries(lines, token) > 0
  {
    if lines[0] != line { EntryCounts(lines[1..], line, token); }
  }

  // ----- What a key line is -----

  predicate Solid(s: string) { s != "" && forall i :: 0 <= i < |s| ==> !Space(s[i]) && !Newline(s[i]) }

  lemma TokenIsSolid(host: string, port: int)
    requires HostToken(host, port).Some?
    ensures var t := HostToken(host, port).value; Solid(t) && Comma(t) == |t|
  {
    var t := HostToken(host, port).value;
    if port != 22 {
      var d := Decimal(port);
      forall i | 0 <= i < |t| ensures !Space(t[i]) && !Newline(t[i]) && t[i] != ',' {
        if 1 <= i <= |host| {
          assert t[i] == host[i - 1];
        } else if i >= |host| + 3 {
          assert t[i] == d[i - |host| - 3];
        }
      }
    }
  }

  lemma {:induction false} LeadingField(token: string, rest: string)
    requires Solid(token)
    ensures FirstField(token + " " + rest) == token
    ensures Leading(token + " " + rest) == token
  {
    var s := token + " " + rest;
    if |token| == 1 {
      assert s[1..] == " " + rest && token == [token[0]];
      assert Leading(s[1..]) == "";
    } else {
      assert s[1..] == token[1..] + " " + rest;
      LeadingField(token[1..], rest);
    }
  }

  /** The line is an entry for its own token and no other. */
  lemma KeyLineEntry(token: string, rest: string, other: string)
    requires Solid(token) && Comma(token) == |token|
    ensures IsEntry(token + " " + rest, other) <==> other == token
  {
    LeadingField(token, rest);
    assert token[..|token|] == token;
  }

  lemma TypeIsSolid(t: string)
    requires TypeCore(t)
    ensures Solid(t)
  {
    var n :| 3 <= n <= 6 && n < |t| && t[..n] in ["ssh-", "ecdsa-", "sk-"]
             && forall i :: n <= i < |t| ==> TypeChar(t[i]);
    forall i | 0 <= i < |t| ensures !Space(t[i]) && !Newline(t[i]) {
      if i < n { assert t[i] == t[..n][i]; }
    }
  }

  lemma OneLineConcat(a: string, b: string)
    requires OneLine(a) && OneLine(b)
    ensures OneLine(a + b)
  {}

  lemma KeyLineIsOneLine(token: string, p: Pin)
    requires Solid(token) && TypeCore(p.keyType) && KeyChars(p.keyData)
    ensures OneLine(KeyLine(token, p))
  {
    TypeIsSolid(p.keyType);
    OneLineConcat(token, " ");
    OneLineConcat(token + " ", p.keyType);
    OneLineConcat(token + " " + p.keyType, " ");
    OneLineConcat(token + " " + p.keyType + " ", p.keyData);
  }

  // ----- The main results -----

  /** What a successful pin leaves: the old text in front; and exactly one line more, if and only
      if the key type does not end in a line feed. */
  lemma PinAppends(fp: string -> Option<string>, file: Option<string>, p: Pin)
    requires Fingerprints(fp) && PinKey(fp, file, p).Pinned?
    ensures var existing := if file.Some? then file.value else "";
            var after := PinKey(fp, file, p).content;
            && existing <= after
            && Lines(existing) <= Lines(after)
            && Closed(after)
            && |Lines(after)| == |Lines(existing)| + (if TypeHasNewline(p.keyType) then 2 else 1)
            && Lines(after) == Lines(existing) + WrittenLines(HostToken(p.host, p.port).value, p)
  {
    TokenIsSolid(p.host, p.port);
    AppendedText(if file.Some? then file.value else "", HostToken(p.host, p.port).value, p);
  }

  /** The lines a pin writes: one, or two if the key type ends in a line feed. */
  function WrittenLines(token: string, p: Pin): seq<string> {
    if TypeHasNewline(p.keyType) then [token + " " + p.keyType[..|p.keyType| - 1], " " + p.keyData]
    else [KeyLine(token, p)]
  }

  lemma AppendedText(existing: string, token: string, p: Pin)
    requires Solid(token) && TypeOk(p.keyType) && KeyChars(p.keyData)
    ensures var after := Appended(existing, KeyLine(token, p));
            && existing <= after && Closed(after)
            && Lines(existing) <= Lines(after)
            && |Lines(after)| == |Lines(existing)| + (if TypeHasNewline(p.keyType) then 2 else 1)
            && Lines(after) == Lines(existing) + WrittenLines(token, p)
  {
    LinesAppended(existing, KeyLine(token, p));
    WrittenAre(token, p);
  }

  lemma WrittenAre(token: string, p: Pin)
    requires Solid(token) && TypeOk(p.keyType) && KeyChars(p.keyData)
    ensures Lines(KeyLine(token, p) + "\n") == WrittenLines(token, p)
  {
    if TypeHasNewline(p.keyType) {
      SplitLine(token, p);
    } else {
      KeyLineIsOneLine(token, p);
      SingleLine(KeyLine(token, p));
    }
  }

  /** A key type that ends in a line feed breaks its line in two. */
  lemma SplitLine(token: string, p: Pin)
    requires Solid(token) && TypeHasNewline(p.keyType) && TypeOk(p.keyType) && KeyChars(p.keyData)
    ensures var core := p.keyType[..|p.keyType| - 1];
            Lines(KeyLine(token, p) + "\n") == [token + " " + core, " " + p.keyData]
  {
    var core := p.keyType[..|p.keyType| - 1];
    TypeIsSolid(core);
    BrokenText(token, core, p);
    OneLineConcat(token, " ");
    OneLineConcat(token + " ", core);
    OneLineConcat(" ", p.keyData);
    TwoLines(token + " " + core, " " + p.keyData);
  }

  lemma BrokenText(token: string, core: string, p: Pin)
    requires TypeHasNewline(p.keyType) && core == p.keyType[..|p.keyType| - 1]
    ensures KeyLine(token, p) + "\n" == ((token + " " + core) + "\n") + ((" " + p.keyData) + "\n")
  {
    assert p.keyType == core + "\n";
  }

  lemma TwoLines(first: string, second: string)
    requires OneLine(first) && OneLine(second)
    ensures Lines((first + "\n") + (second + "\n")) == [first, second]
  {
    LinesConcat(first + "\n", second + "\n");
    SingleLine(first);
    SingleLine(second);
  }

  /** A second line that itself is an entry: of the key, taken for a host token. */
  predicate Stray(p: Pin) { TypeHasNewline(p.keyType) && p.keyData != "" }

  /** What a successful pin adds for each token: its own gets its only entry; a broken line adds one
      for the key data; nobody else's change. */
  lemma PinAddsEntries(fp: string -> Option<string>, file: Option<string>, p: Pin, other: string)
    requires Fingerprints(fp) && PinKey(fp, file, p).Pinned?
    ensures var existing := if file.Some? then file.value else "";
            var token := HostToken(p.host, p.port).value;
            var before, after := Lines(existing), Lines(PinKey(fp, file, p).content);
            && Entries(before, token) == 0
            && Entries(after, other) == Entries(before, other)
                 + (if other == token then 1 else 0) + (if Stray(p) && other == p.keyData then 1 else 0)
  {
    var existing := if file.Some? then file.value else "";
    PinAppends(fp, file, p);
    TokenIsSolid(p.host, p.port);
    WrittenEntries(Lines(existing), HostToken(p.host, p.port).value, p, other);
  }

  lemma WrittenEntries(before: seq<string>, token: string, p: Pin, other: string)
    requires Solid(token) && Comma(token) == |token| && KeyChars(p.keyData)
    ensures Entries(before + WrittenLines(token, p), other) == Entries(before, other)
              + (if other == token then 1 else 0) + (if Stray(p) && other == p.keyData then 1 else 0)
  {
    var written := WrittenLines(token, p);
    EntriesConcat(before, written, other);
    if TypeHasNewline(p.keyType) {
      KeyLineEntry(token, p.keyType[..|p.keyType| - 1], other);
      KeyDataEntry(p.keyData, other);
      assert written == [written[0]] + [" " + p.keyData];
      EntriesConcat([written[0]], [" " + p.keyData], other);
    } else {
      OwnEntry(token, p, other);
    }
  }

  lemma OwnEntry(token: string, q: Pin, other: string)
    requires Solid(token) && Comma(token) == |token|
    ensures IsEntry(KeyLine(token, q), other) <==> other == token
  {
    KeyLineFields(token, q);
    assert KeyLine(token, q) == token + " " + (q.keyType + " " + q.keyData);
    KeyLineEntry(token, q.keyType + " " + q.keyData, other);
  }

  lemma {:induction false} LeadingAll(s: string)
    requires forall i :: 0 <= i < |s| ==> !Space(s[i])
    ensures Leading(s) == s
  {
    if s != "" { LeadingAll(s[1..]); }
  }

  lemma KeyDataEntry(keyData: string, other: string)
    requires KeyChars(keyData)
    ensures IsEntry(" " + keyData, other) <==> keyData != "" && other == keyData
  {
    var s := " " + keyData;
    assert s[1..] == keyData;
    LeadingAll(keyData);
    assert FirstField(s) == keyData;
    assert Comma(keyData) == |keyData| && keyData[..|keyData|] == keyData;
  }

  /** When a text makes a further pin answer "already pinned". */
  lemma AlreadyPinnedWhen(fp: string -> Option<string>, text: string, p: Pin, token: string)
    requires fp(p.keyData) == Some(p.expected) && TypeOk(p.keyType) && HostToken(p.host, p.port) == Some(token)
    requires Entries(Lines(text), token) > 0
    ensures PinKey(fp, Some(text), p).AlreadyPinned? <==>
              Size(text) <= MAX_SIZE && KeyLine(token, p) in Lines(text)
    ensures !PinKey(fp, Some(text), p).Pinned?
  {}

  lemma {:induction false} LinesAreLines(s: string)
    ensures forall line :: line in Lines(s) ==> OneLine(line)
  {
    if s != "" { LinesAreLines(s[NextLine(s)..]); }
  }

  lemma BrokenLineIsNoLine(token: string, p: Pin, text: string)
    requires TypeHasNewline(p.keyType)
    ensures KeyLine(token, p) !in Lines(text)
  {
    LinesAreLines(text);
    BrokenLine(token, p);
  }

  lemma BrokenLine(token: string, p: Pin)
    requires TypeHasNewline(p.keyType)
    ensures !OneLine(KeyLine(token, p))
  {
    assert KeyLine(token, p)[|token| + |p.keyType|] == p.keyType[|p.keyType| - 1];
  }

  /** Pinning the same key again answers "already pinned", if and only if the key type has no
      final line feed and the file is still within its maximal size. */
  lemma RepeatedPin(fp: string -> Option<string>, file: Option<string>, p: Pin)
    requires Fingerprints(fp) && PinKey(fp, file, p).Pinned?
    ensures var after := PinKey(fp, file, p).content;
            PinKey(fp, Some(after), p).AlreadyPinned? <==> !TypeHasNewline(p.keyType) && Size(after) <= MAX_SIZE
  {
    var after := PinKey(fp, file, p).content;
    var token := HostToken(p.host, p.port).value;
    PinAddsEntries(fp, file, p, token);
    AlreadyPinnedWhen(fp, after, p, token);
    if TypeHasNewline(p.keyType) {
      BrokenLineIsNoLine(token, p, after);
    } else {
      PinAppends(fp, file, p);
    }
  }

  /** A host that is pinned keeps its key: a pin of anything else for it is refused, and even of the
      same key, if its line was broken. */
  lemma OtherKeyRefused(fp: string -> Option<string>, file: Option<string>, p: Pin, q: Pin)
    requires Fingerprints(fp) && PinKey(fp, file, p).Pinned?
    requires HostToken(q.host, q.port) == HostToken(p.host, p.port)
    requires TypeHasNewline(p.keyType) || q.keyType != p.keyType || q.keyData != p.keyData
    ensures PinKey(fp, Some(PinKey(fp, file, p).content), q) == Refused
  {
    var existing := if file.Some? then file.value else "";
    var after := PinKey(fp, file, p).content;
    var token := HostToken(p.host, p.port).value;
    if fp(q.keyData) == Some(q.expected) && TypeOk(q.keyType) {
      PinAddsEntries(fp, file, p, token);
      AlreadyPinnedWhen(fp, after, q, token);
      PinAppends(fp, file, p);
      TokenIsSolid(p.host, p.port);
      NoOtherLine(token, p, q, Lines(existing), after);
    }
  }

  /** No line for the token is an old one; only an unbroken pin of the same key is the new one. */
  lemma NoOtherLine(token: string, p: Pin, q: Pin, before: seq<string>, after: string)
    requires Solid(token) && Comma(token) == |token|
    requires TypeOk(p.keyType) && TypeOk(q.keyType) && KeyChars(p.keyData)
    requires TypeHasNewline(p.keyType) || q.keyType != p.keyType || q.keyData != p.keyData
    requires Entries(before, token) == 0 && Lines(after) == before + WrittenLines(token, p)
    ensures KeyLine(token, q) !in Lines(after)
  {
    var line := KeyLine(token, q);
    if line in before {
      OwnEntry(token, q, token);
      EntryCounts(before, line, token);
    }
    if TypeHasNewline(q.keyType) {
      BrokenLineIsNoLine(token, q, after);
    } else if TypeHasNewline(p.keyType) {
      NotABrokenLine(token, p, q);
    } else if line == KeyLine(token, p) {
      KeyLineIsOneLine(token, p);
      SameKeyLine(token, p, q);
    }
  }

  lemma SpaceInside(a: string, b: string)
    ensures !Solid(a + " " + b)
  {
    assert (a + " " + b)[|a|] == ' ';
  }

  lemma NotABrokenLine(token: string, p: Pin, q: Pin)
    requires Solid(token) && TypeOk(p.keyType) && TypeHasNewline(p.keyType)
    ensures KeyLine(token, q) !in WrittenLines(token, p)
  {
    var core := p.keyType[..|p.keyType| - 1];
    TypeIsSolid(core);
    KeyLineFields(token, q);
    SpaceInside(q.keyType, q.keyData);
    if KeyLine(token, q) == token + " " + core {
      Cancel(token + " ", core, q.keyType + " " + q.keyData);
    }
    assert KeyLine(token, q)[0] == token[0];
  }

  lemma SameKeyLine(token: string, p: Pin, q: Pin)
    requires Solid(token) && KeyLine(token, p) == KeyLine(token, q)
    requires TypeCore(p.keyType) && TypeOk(q.keyType) && OneLine(KeyLine(token, q))
    ensures p.keyType == q.keyType && p.keyData == q.keyData
  {
    if TypeHasNewline(q.keyType) { BrokenLine(token, q); }
    TypeIsSolid(p.keyType);
    TypeIsSolid(q.keyType);
    KeyLineFields(token, p);
    KeyLineFields(token, q);
    Cancel(token + " ", p.keyType + " " + p.keyData, q.keyType + " " + q.keyData);
    SameFields(p.keyType, p.keyData, q.keyType, q.keyData);
  }

  lemma KeyLineFields(token: string, p: Pin)
    ensures KeyLine(token, p) == (token + " ") + (p.keyType + " " + p.keyData)
  {}

  lemma Cancel(front: string, a: string, b: string)
    requires front + a == front + b
    ensures a == b
  {
    assert a == (front + a)[|front|..] && b == (front + b)[|front|..];
  }

  lemma SameFields(a: string, x: string, b: string, y: string)
    requires Solid(a) && Solid(b) && a + " " + x == b + " " + y
    ensures a == b && x == y
  {
    LeadingField(a, x);
    LeadingField(b, y);
    Cancel(a + " ", x, y);
  }

  // ----- Any number of pins -----

  /** The file after one pin. */
  function Next(fp: string -> Option<string>, file: Option<string>, p: Pin): Option<string> {
    var r := PinKey(fp, file, p);
    if r.Pinned? then Some(r.content) else file
  }

  function PinAll(fp: string -> Option<string>, file: Option<string>, ps: seq<Pin>): Option<string>
    decreases |ps|
  {
    if ps == [] then file else PinAll(fp, Next(fp, file, ps[0]), ps[1..])
  }

  /** No token has two lines. */
  ghost predicate Unique(file: Option<string>) {
    file.Some? ==> forall t :: Entries(Lines(file.value), t) <= 1
  }

  /** The pin's second line, if it has one, is not an entry of a token that has one. */
  predicate Harmless(fp: string -> Option<string>, file: Option<string>, p: Pin) {
    PinKey(fp, file, p).Pinned? && Stray(p) ==>
      && HostToken(p.host, p.port) != Some(p.keyData)
      && Entries(Lines(if file.Some? then file.value else ""), p.keyData) == 0
  }

  /** Exactly when a pin keeps every token to one line. */
  lemma PinKeepsUniqueIff(fp: string -> Option<string>, file: Option<string>, p: Pin)
    requires Fingerprints(fp) && PinKey(fp, file, p).Pinned? && Unique(file)
    ensures Unique(Some(PinKey(fp, file, p).content)) <==> Harmless(fp, file, p)
  {
    var after := Lines(PinKey(fp, file, p).content);
    PinAddsEntries(fp, file, p, p.keyData);
    if Harmless(fp, file, p) {
      forall t ensures Entries(after, t) <= 1 { PinAddsEntries(fp, file, p, t); }
    } else {
      assert Entries(after, p.keyData) > 1;
    }
  }

  ghost predicate AllHarmless(fp: string -> Option<string>, file: Option<string>, ps: seq<Pin>)
    decreases |ps|
  {
    ps == [] || (Harmless(fp, file, ps[0]) && AllHarmless(fp, Next(fp, file, ps[0]), ps[1..]))
  }

  /** Whatever is pinned, every line once written stays where it is, and no token loses an entry. */
  lemma {:induction false} PinsOnlyAppend(fp: string -> Option<string>, file: Option<string>, ps: seq<Pin>, t: string)
    requires Fingerprints(fp) && file.Some?
    ensures var after := PinAll(fp, file, ps);
            && after.Some? && file.value <= after.value && Lines(file.value) <= Lines(after.value)
            && Entries(Lines(file.value), t) <= Entries(Lines(after.value), t)
    decreases |ps|
  {
    if ps != [] {
      if PinKey(fp, file, ps[0]).Pinned? {
        PinAppends(fp, file, ps[0]);
        PinAddsEntries(fp, file, ps[0], t);
      }
      PinsOnlyAppend(fp, Next(fp, file, ps[0]), ps[1..], t);
    }
  }

  /** Exactly when a sequence of pins leaves every token with one line: when each of them, at its
      turn, is harmless.  Pins without a final line feed in their key types always are. */
  lemma {:induction false} PinsStayUniqueIff(fp: string -> Option<string>, file: Option<string>, ps: seq<Pin>)
    requires Fingerprints(fp) && Unique(file)
    ensures Unique(PinAll(fp, file, ps)) <==> AllHarmless(fp, file, ps)
    ensures (forall i :: 0 <= i < |ps| ==> !TypeHasNewline(ps[i].keyType)) ==> AllHarmless(fp, file, ps)
    decreases |ps|
  {
    if ps != [] {
      var next := Next(fp, file, ps[0]);
      if PinKey(fp, file, ps[0]).Pinned? { PinKeepsUniqueIff(fp, file, ps[0]); }
      if Unique(next) {
        PinsStayUniqueIff(fp, next, ps[1..]);
      } else {
        var t :| Entries(Lines(next.value), t) > 1;
        PinsOnlyAppend(fp, next, ps[1..], t);
      }
    }
  }

  /** The first pin always succeeds, with a sound key and host. */
  lemma FirstPin(fp: string -> Option<string>, p: Pin, token: string)
    requires fp(p.keyData) == Some(p.expected) && TypeOk(p.keyType) && HostToken(p.host, p.port) == Some(token)
    ensures PinKey(fp, None, p) == Pinned(KeyLine(token, p) + "\n")
  {
    AppendedToNothing(KeyLine(token, p));
  }

  lemma AppendedToNothing(line: string)
    ensures Appended("", line) == line + "\n" && Lines("") == [] && Size("") == 0
  {
    assert "" + line + "\n" == line + "\n";
  }

  /** A broken pin does happen: its second line passes for an entry of a host named like the key. */
  lemma BrokenPinHappens(fp: string -> Option<string>, e: string)
    requires Fingerprints(fp) && fp("AAAA") == Some(e)
    ensures var p := Pin("h", 22, "ssh-rsa\n", "AAAA", e);
            && PinKey(fp, None, p).Pinned?
            && |Lines(PinKey(fp, None, p).content)| == 2
            && Entries(Lines(PinKey(fp, None, p).content), "AAAA") == 1
  {
    var p := Pin("h", 22, "ssh-rsa\n", "AAAA", e);
    BrokenType();
    FirstPin(fp, p, "h");
    PinAppends(fp, None, p);
    AppendedText("", "h", p);
    PinAddsEntries(fp, None, p, "AAAA");
  }

  lemma BrokenType()
    ensures TypeOk("ssh-rsa\n") && TypeHasNewline("ssh-rsa\n")
  {
    var t := "ssh-rsa\n";
    assert t[..|t| - 1] == "ssh-rsa" && "ssh-rsa"[..4] == "ssh-";
  }

  // ----- Key types that come from a scan -----

  /** What follows the first field of a line. */
  function AfterField(s: string): string {
    if s == "" then "" else if Space(s[0]) then AfterField(s[1..]) else s[|Leading(s)|..]
  }

  /** line.split()[n], or "" when there is none. */
  function Field(s: string, n: nat): string
    decreases n
  {
    if n == 0 then FirstField(s) else Field(AfterField(s), n - 1)
  }

  lemma {:induction false} LeadingIsSolid(s: string)
    ensures forall i :: 0 <= i < |Leading(s)| ==> !Space(Leading(s)[i])
  {
    if s != "" && !Space(s[0]) { LeadingIsSolid(s[1..]); }
  }

  /** A key type that parse_keyscan found never ends in a line feed: it is a field of a split line. */
  lemma {:induction false} ScannedTypeIsWhole(line: string, n: nat)
    ensures !TypeHasNewline(Field(line, n))
    decreases n, |line|
  {
    if n > 0 {
      ScannedTypeIsWhole(AfterField(line), n - 1);
    } else if line != "" {
      if Space(line[0]) {
        ScannedTypeIsWhole(line[1..], 0);
      } else {
        LeadingIsSolid(line);
      }
    }
  }
}
