/** Quoting command arguments, against the quoting rules of the shell: sections 2.2.1 (escape
    character) and 2.2.2 (single quotes) of the POSIX.1-2017 Shell Command Language. */
module ShellQuote {

  /** str.replace("'", "'\\''") */
  function Escape(s: string): string {
    if s == "" then "" else (if s[0] == '\'' then "'\\''" else [s[0]]) + Escape(s[1..])
  }

  function Quote(s: string): string { "'" + Escape(s) + "'" }

  // ----- The shell's side -----

  datatype Token = Word(text: string) | Redirect

  /** Between words; inside one; inside quotes; after a backslash (`open`: inside a word). */
  datatype Mode = Between | Bare | InQuotes | Escaped(open: bool)

  datatype Lexed = Tokens(tokens: seq<Token>) | Other

  predicate Blank(c: char) { c == ' ' || c == '\t' }

  /** Characters that stand for themselves outside quotes. */
  predicate Ordinary(c: char) {
    !Blank(c) && c !in "|&;<>()$`\\\"'\n*?[#~"
  }

  /** Split a command line into tokens.  An unquoted character with another meaning, an open
      quotation or a dangling backslash leads to Other. */
  function Lex(s: string, mode: Mode, word: string, done: seq<Token>): Lexed
    decreases |s|
  {
    if s == "" then
      if mode.Between? then Tokens(done)
      else if mode.Bare? then Tokens(done + [Word(word)])
      else Other
    else
      var c, rest := s[0], s[1..];
      match mode
      case InQuotes => if c == '\'' then Lex(rest, Bare, word, done) else Lex(rest, InQuotes, word + [c], done)
      case Escaped(open) =>
        if c == '\n' then Lex(rest, if open then Bare else Between, word, done)
        else Lex(rest, Bare, word + [c], done)
      case _ =>
        var ended := if mode.Bare? then done + [Word(word)] else done;
        var begun := if mode.Bare? then word else "";
        if Blank(c) then Lex(rest, Between, "", ended)
        else if c == '\'' then Lex(rest, InQuotes, begun, done)
        else if c == '\\' then Lex(rest, Escaped(mode.Bare?), begun, done)
        else if c == '>' then Lex(rest, Between, "", ended + [Redirect])
        else if Ordinary(c) then Lex(rest, Bare, begun + [c], done)
        else Other
  }

  function Parse(command: string): Lexed { Lex(command, Between, "", []) }

  // ----- The command lines the transport builds -----

  /** A fixed word of a command, an arbitrary argument, or the output redirection of uploads. */
  datatype Part = Fixed(w: string) | Argument(s: string) | Output

  predicate Plain(p: Part) {
    p.Fixed? ==> p.w != "" && forall i :: 0 <= i < |p.w| ==> Ordinary(p.w[i])
  }

  function Render(p: Part): string {
    match p
    case Fixed(w) => w
    case Argument(s) => Quote(s)
    case Output => ">"
  }

  function Command(parts: seq<Part>): string {
    if parts == [] then ""
    else if |parts| == 1 then Render(parts[0])
    else Render(parts[0]) + " " + Command(parts[1..])
  }

  function Meaning(p: Part): Token {
    match p
    case Fixed(w) => Word(w)
    case Argument(s) => Word(s)
    case Output => Redirect
  }

  function Meanings(parts: seq<Part>): (r: seq<Token>)
    ensures |r| == |parts|
    ensures forall i :: 0 <= i < |r| ==> r[i] == Meaning(parts[i])
  {
    if parts == [] then [] else [Meaning(parts[0])] + Meanings(parts[1..])
  }

  // ----- The round trip -----

  lemma {:induction false} LexFixed(w: string, rest: string, word: string, done: seq<Token>)
    requires forall i :: 0 <= i < |w| ==> Ordinary(w[i])
    ensures Lex(w + rest, Bare, word, done) == Lex(rest, Bare, word + w, done)
  {
    if w == "" {
      assert w + rest == rest && word + w == word;
    } else {
      assert (w + rest)[1..] == w[1..] + rest && word + [w[0]] + w[1..] == word + w;
      LexFixed(w[1..], rest, word + [w[0]], done);
    }
  }

  /** The replacement for a quote character: close, an escaped quote, open again. */
  lemma LexQuoteMark(rest: string, word: string, done: seq<Token>)
    ensures Lex("'\\''" + rest, InQuotes, word, done) == Lex(rest, InQuotes, word + "'", done)
  {
    var s := "'\\''" + rest;
    assert s[1..] == "\\''" + rest && s[1..][1..] == "''" + rest && s[1..][1..][1..] == "'" + rest
        && s[1..][1..][1..][1..] == rest;
    assert Lex(s, InQuotes, word, done) == Lex(s[1..], Bare, word, done);
    assert Lex(s[1..], Bare, word, done) == Lex(s[1..][1..], Escaped(true), word, done);
    assert Lex(s[1..][1..], Escaped(true), word, done) == Lex(s[1..][1..][1..], Bare, word + ['\''], done);
  }

  lemma {:induction false} LexEscaped(s: string, rest: string, word: string, done: seq<Token>)
    ensures Lex(Escape(s) + "'" + rest, InQuotes, word, done) == Lex(rest, Bare, word + s, done)
  {
    if s == "" {
      assert Escape(s) + "'" + rest == "'" + rest && ("'" + rest)[1..] == rest && word + s == word;
    } else {
      var head := if s[0] == '\'' then "'\\''" else [s[0]];
      var tail := Escape(s[1..]) + "'" + rest;
      assert Escape(s) + "'" + rest == head + tail;
      assert word + [s[0]] + s[1..] == word + s;
      if s[0] == '\'' {
        LexQuoteMark(tail, word, done);
        assert word + "'" == word + [s[0]];
      } else {
        assert (head + tail)[1..] == tail;
      }
      LexEscaped(s[1..], rest, word + [s[0]], done);
    }
  }

  function AfterPart(p: Part, rest: string, done: seq<Token>): Lexed {
    match p
    case Fixed(w) => Lex(rest, Bare, w, done)
    case Argument(s) => Lex(rest, Bare, s, done)
    case Output => Lex(rest, Between, "", done + [Redirect])
  }

  /** Each part is read back whole, up to what follows it. */
  lemma LexPart(p: Part, rest: string, done: seq<Token>)
    requires Plain(p)
    ensures Lex(Render(p) + rest, Between, "", done) == AfterPart(p, rest, done)
  {
    match p
    case Fixed(w) =>
      assert (w + rest)[1..] == w[1..] + rest && "" + [w[0]] == [w[0]] && [w[0]] + w[1..] == w;
      LexFixed(w[1..], rest, [w[0]], done);
    case Argument(s) =>
      assert (Quote(s) + rest)[1..] == Escape(s) + "'" + rest;
      LexEscaped(s, rest, "", done);
      assert "" + s == s;
    case Output =>
      assert (">" + rest)[1..] == rest;
  }

  lemma AfterBlank(p: Part, rest: string, done: seq<Token>)
    ensures AfterPart(p, " " + rest, done) == Lex(rest, Between, "", done + [Meaning(p)])
  {
    assert (" " + rest)[1..] == rest;
  }

  lemma AfterLast(p: Part, done: seq<Token>)
    ensures AfterPart(p, "", done) == Tokens(done + [Meaning(p)])
  {}

  lemma CommandParts(parts: seq<Part>)
    requires parts != []
    ensures Command(parts) == Render(parts[0]) + if |parts| == 1 then "" else " " + Command(parts[1..])
  {}

  lemma MeaningsParts(parts: seq<Part>, done: seq<Token>)
    requires parts != []
    ensures (done + [Meaning(parts[0])]) + Meanings(parts[1..]) == done + Meanings(parts)
  {}

  lemma {:induction false} LexCommand(parts: seq<Part>, done: seq<Token>)
    requires forall i :: 0 <= i < |parts| ==> Plain(parts[i])
    ensures Lex(Command(parts), Between, "", done) == Tokens(done + Meanings(parts))
  {
    if parts == [] {
      assert done + [] == done;
    } else {
      LexParts(parts, done);
      MeaningsParts(parts, done);
      if |parts| > 1 {
        LexCommand(parts[1..], done + [Meaning(parts[0])]);
      } else {
        assert Meanings(parts[1..]) == [] && (done + [Meaning(parts[0])]) + [] == done + [Meaning(parts[0])];
      }
    }
  }

  /** The first part, and what is left to read. */
  lemma LexParts(parts: seq<Part>, done: seq<Token>)
    requires parts != [] && Plain(parts[0])
    ensures Lex(Command(parts), Between, "", done) ==
              if |parts| == 1 then Tokens(done + [Meaning(parts[0])])
              else Lex(Command(parts[1..]), Between, "", done + [Meaning(parts[0])])
  {
    hide Lex, AfterPart, Render, Command;
    var p := parts[0];
    CommandParts(parts);
    if |parts| == 1 {
      LexPart(p, "", done);
      AfterLast(p, done);
    } else {
      LexPart(p, " " + Command(parts[1..]), done);
      AfterBlank(p, Command(parts[1..]), done);
    }
  }

  /** Any command line made of fixed words, redirections and quoted arguments is read by the
      shell as exactly those words; in particular every argument, empty or with quotes in it,
      comes back unchanged as one word. */
  lemma CommandRoundTrip(parts: seq<Part>)
    requires forall i :: 0 <= i < |parts| ==> Plain(parts[i])
    ensures Parse(Command(parts)) == Tokens(Meanings(parts))
  {
    LexCommand(parts, []);
    assert [] + Meanings(parts) == Meanings(parts);
  }

  function Arguments(args: seq<string>): (r: seq<Part>)
    ensures |r| == |args|
    ensures forall i :: 0 <= i < |r| ==> r[i] == Argument(args[i])
  {
    seq(|args|, i requires 0 <= i < |args| => Argument(args[i]))
  }

  lemma QuotedListRoundTrip(args: seq<string>)
    ensures var r := Parse(Command(Arguments(args)));
            r.Tokens? && |r.tokens| == |args| && forall i :: 0 <= i < |args| ==> r.tokens[i] == Word(args[i])
  {
    CommandRoundTrip(Arguments(args));
  }

  /** The command that an upload sends, and the one that a download sends. */
  lemma CopyCommands(word: string, path: string)
    requires word != "" && forall i :: 0 <= i < |word| ==> Ordinary(word[i])
    ensures Parse(word + " > " + Quote(path)) == Tokens([Word(word), Redirect, Word(path)])
    ensures Parse(word + " " + Quote(path)) == Tokens([Word(word), Word(path)])
  {
    hide Lex, Parse, Quote;
    UploadText(word, path);
    CommandRoundTrip([Fixed(word), Output, Argument(path)]);
    CommandRoundTrip([Fixed(word), Argument(path)]);
  }

  lemma UploadText(word: string, path: string)
    ensures Command([Fixed(word), Output, Argument(path)]) == word + " > " + Quote(path)
    ensures Command([Fixed(word), Argument(path)]) == word + " " + Quote(path)
    ensures Meanings([Fixed(word), Output, Argument(path)]) == [Word(word), Redirect, Word(path)]
    ensures Meanings([Fixed(word), Argument(path)]) == [Word(word), Word(path)]
  {
    hide Quote;
    var last, middle := [Argument(path)], [Output, Argument(path)];
    assert middle[1..] == last && [Fixed(word), Output, Argument(path)][1..] == middle;
    assert [Fixed(word), Argument(path)][1..] == last;
    assert Command(middle) == ">" + " " + Quote(path);
    assert word + " " + (">" + " " + Quote(path)) == word + " > " + Quote(path);
  }
}
