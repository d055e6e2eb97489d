/** What the lexical functions on paths mean: components are read one after the other, ".." goes back
    one, and a joined path is the first path and then the second. */
module PathMeaning {
  import opened PathGuard
  import opened Sequences
  import opened Text

  /** One more component: an empty one and "." add nothing. */
  lemma CompsStep(s: string, c: string)
    requires '/' !in c
    ensures Comps(s + "/" + c) == Comps(s) + if c == "" || c == "." then [] else [c]
  {
    SplitAppend(s, c);
    SplitNoSlash(c);
    CleanAppend(Split(s), [c]);
    assert Clean([c]) == Kept(c) + Clean([]) == Kept(c);
  }

  lemma CompsAlone(c: string)
    requires '/' !in c
    ensures Comps(c) == if c == "" || c == "." then [] else [c]
  {
    SplitNoSlash(c);
    assert Clean([c]) == Kept(c) + Clean([]) == Kept(c);
  }

  /** The normal form follows a path component by component: ".." takes the last one back, and stays
      where it is at the root. */
  lemma NormalStep(s: string, c: string)
    requires '/' !in c
    ensures var n := Normal(s);
            Normal(s + "/" + c) ==
              if c == "" || c == "." then n
              else if c != ".." then n + [c]
              else if n == [] then [] else n[..|n| - 1]
  {
    CompsStep(s, c);
    var rest := if c == "" || c == "." then [] else [c];
    ClimbSplits([], Comps(s), rest);
    assert rest != [] ==> [c][1..] == [];
  }

  lemma NormalOfRoot()
    ensures Normal("") == [] && Normal("/") == []
  {
    ShortPaths();
  }

  /** An absolute second path replaces the first; any other is read from where the first one ends. */
  lemma JoinedComps(a: string, b: string)
    requires Absolute(a)
    ensures Absolute(b) ==> PathJoin(a, b) == b
    ensures !Absolute(b) ==> a <= PathJoin(a, b) && Comps(PathJoin(a, b)) == Comps(a) + Comps(b)
    ensures !Absolute(b) ==> Normal(PathJoin(a, b)) == Climb(Normal(a), Comps(b))
  {
    hide Comps, Climb;
    if !Absolute(b) {
      if a[|a| - 1] == '/' {
        var front := a[..|a| - 1];
        assert front + "/" + "" == a && front + "/" + b == a + b;
        CompsStep(front, "");
        CompsAppend(front, b);
      } else {
        CompsAppend(a, b);
      }
      ClimbSplits([], Comps(a), Comps(b));
    }
  }

  /** The path a request stands for. */
  lemma RequestedIs(cwd: string, home: string, raw: string)
    requires Absolute(cwd) && Absolute(home)
    ensures raw == "~" ==> Requested(cwd, home, raw) == home
    ensures "~/" <= raw && Absolute(raw[2..]) ==> Requested(cwd, home, raw) == raw[2..]
    ensures "~/" <= raw && !Absolute(raw[2..]) ==> Comps(Requested(cwd, home, raw)) == Comps(home) + Comps(raw[2..])
    ensures Absolute(raw) ==> Requested(cwd, home, raw) == raw
    ensures !Absolute(raw) && raw != "~" && !("~/" <= raw) ==>
              Comps(Requested(cwd, home, raw)) == Comps(cwd) + Comps(raw)
  {
    JoinedComps(cwd, raw);
    if "~/" <= raw { JoinedComps(home, raw[2..]); }
  }

  predicate Blank(s: string) { forall i :: 0 <= i < |s| ==> Space(s[i]) }

  lemma FrontGrows(s: string, front: string, mid: string, back: string)
    requires s != "" && Space(s[0]) && s[1..] == front + mid + back && Blank(front)
    ensures s == [s[0]] + front + mid + back && Blank([s[0]] + front)
  {
    HeadAndTail(s);
    Assoc([s[0]], front + mid, back);
    Assoc([s[0]], front, mid);
    hide Space;
  }

  lemma BackGrows(s: string, front: string, mid: string, back: string)
    requires s != "" && Space(s[|s| - 1]) && s[..|s| - 1] == front + mid + back && Blank(back)
    ensures s == front + mid + (back + [s[|s| - 1]]) && Blank(back + [s[|s| - 1]])
  {
    assert s == s[..|s| - 1] + [s[|s| - 1]];
    Assoc(front + mid, back, [s[|s| - 1]]);
    hide Space;
  }

  /** Stripping takes the white space at both ends, and nothing else. */
  lemma {:induction false} StripIs(s: string) returns (front: string, back: string)
    ensures s == front + Strip(s) + back && Blank(front) && Blank(back)
    ensures Strip(s) != "" ==> !Space(Strip(s)[0]) && !Space(Strip(s)[|Strip(s)| - 1])
    decreases |s|
  {
    hide Space;
    front, back := "", "";
    if s != "" && Space(s[0]) {
      front, back := StripIs(s[1..]);
      FrontGrows(s, front, Strip(s), back);
      front := [s[0]] + front;
    } else if s != "" && Space(s[|s| - 1]) {
      front, back := StripIs(s[..|s| - 1]);
      BackGrows(s, front, Strip(s), back);
      back := back + [s[|s| - 1]];
    }
  }

  /** The components are handed on as they are, or the first that is not allowed is the reason. */
  lemma {:induction false} PartsOrFirstBad(cs: seq<string>)
    ensures if AllFine(cs) then PartsOf(cs) == Ok(cs)
            else exists k :: 0 <= k < |cs| && AllFine(cs[..k]) && !Fine(cs[k])
                             && PartsOf(cs) == Err(if cs[k] == ".." then Escape else Nul)
  {
    if cs == [] {
    } else if !Fine(cs[0]) {
      assert AllFine(cs[..0]) && !Fine(cs[0]);
    } else {
      HeadAndTail(cs);
      PartsOrFirstBad(cs[1..]);
      if AllFine(cs[1..]) {
        assert AllFine(cs);
      } else {
        var k :| 0 <= k < |cs[1..]| && AllFine(cs[1..][..k]) && !Fine(cs[1..][k])
                 && PartsOf(cs[1..]) == Err(if cs[1..][k] == ".." then Escape else Nul);
        assert cs[..k + 1] == [cs[0]] + cs[1..][..k] && cs[k + 1] == cs[1..][k];
        assert !Fine(cs[k + 1]) && AllFine(cs[..k + 1]);
      }
    }
  }
}
