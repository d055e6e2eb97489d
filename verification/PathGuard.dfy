/** Lexical path handling: which anchor and components a requested path stands for. */
module PathGuard {
  import opened Sequences
  import opened Text

  datatype Error = Escape | Nul | Outside

  datatype Result<T> = Ok(value: T) | Err(error: Error)

  // ----- Splitting and joining text at slashes -----

  function Slash(s: string): (k: nat)
    ensures k <= |s|
    ensures forall i :: 0 <= i < k ==> s[i] != '/'
    ensures k < |s| ==> s[k] == '/'
  {
    if s == "" || s[0] == '/' then 0 else 1 + Slash(s[1..])
  }

  /** s.split("/") */
  function Split(s: string): (items: seq<string>)
    ensures items != []
  {
    var k := Slash(s);
    if k == |s| then [s] else [s[..k]] + Split(s[k + 1..])
  }

  /** "/".join(items) */
  function Join(items: seq<string>): string {
    if |items| == 0 then "" else if |items| == 1 then items[0] else items[0] + "/" + Join(items[1..])
  }

  function Kept(item: string): seq<string> { if item == "" || item == "." then [] else [item] }

  function Clean(items: seq<string>): seq<string> {
    if items == [] then [] else Kept(items[0]) + Clean(items[1..])
  }

  function NonEmpty(items: seq<string>): seq<string> {
    if items == [] then [] else (if items[0] == "" then [] else [items[0]]) + NonEmpty(items[1..])
  }

  /** The components of a path, ".." included. */
  function Comps(s: string): seq<string> { Clean(Split(s)) }

  // ----- The operations of os.path that are used, on absolute paths -----

  predicate Absolute(s: string) { s != "" && s[0] == '/' }

  /** Exactly two leading slashes are a root of their own. */
  predicate DoubleSlash(s: string) { |s| >= 2 && s[..2] == "//" && (|s| == 2 || s[2] != '/') }

  function Root(s: string): string { if DoubleSlash(s) then "//" else "/" }

  /** Resolving "..": it removes the component before it, and nothing at the root. */
  function Climb(done: seq<string>, items: seq<string>): seq<string>
    decreases |items|
  {
    if items == [] then done
    else if items[0] != ".." then Climb(done + [items[0]], items[1..])
    else Climb(if done == [] then [] else done[..|done| - 1], items[1..])
  }

  /** The lexical normal form of an absolute path, as components. */
  function Normal(s: string): seq<string> { Climb([], Comps(s)) }

  function NormPath(s: string): string
    requires Absolute(s)
  {
    Root(s) + Join(Normal(s))
  }

  function PathJoin(a: string, b: string): string {
    if Absolute(b) then b else if a == "" || a[|a| - 1] == '/' then a + b else a + "/" + b
  }

  function AbsPath(cwd: string, s: string): string
    requires Absolute(cwd)
  {
    NormPath(PathJoin(cwd, s))
  }

  function CommonPrefix(a: seq<string>, b: seq<string>): seq<string> {
    if a == [] || b == [] || a[0] != b[0] then [] else [a[0]] + CommonPrefix(a[1..], b[1..])
  }

  function CommonPath(a: string, b: string): string
    requires Absolute(a) && Absolute(b)
  {
    "/" + Join(CommonPrefix(Comps(a), Comps(b)))
  }

  function Ups(n: nat): seq<string> { seq(n, _ => "..") }

  function Route(from: seq<string>, to: seq<string>): seq<string> {
    var shared := CommonPrefix(from, to);
    CommonPrefixIsPrefix(from, to);
    Ups(|from| - |shared|) + to[|shared|..]
  }

  function RelPath(s: string, start: string): string
    requires Absolute(s) && Absolute(start)
  {
    var items := Route(NonEmpty(Split(NormPath(start))), NonEmpty(Split(NormPath(s))));
    if items == [] then "." else Join(items)
  }

  function Strip(s: string): string {
    if s == "" then ""
    else if Space(s[0]) then Strip(s[1..])
    else if Space(s[|s| - 1]) then Strip(s[..|s| - 1])
    else s
  }

  function StripRoot(s: string): string { if Absolute(s) then StripRoot(s[1..]) else s }

  lemma HeadAndTail<T>(s: seq<T>)
    requires s != []
    ensures [s[0]] + s[1..] == s
  {}

  // ----- The guard -----

  predicate Fine(c: string) { c != ".." && '\0' !in c }

  function PartsOf(comps: seq<string>): Result<seq<string>> {
    if comps == [] then Ok([])
    else if comps[0] == ".." then Err(Escape)
    else if '\0' in comps[0] then Err(Nul)
    else
      var rest := PartsOf(comps[1..]);
      if rest.Ok? then Ok([comps[0]] + rest.value) else rest
  }

  lemma CleanStep(parts: seq<string>, items: seq<string>, i: nat)
    requires i < |items|
    ensures parts + Clean(items[i..]) == (parts + Kept(items[i])) + Clean(items[i + 1..])
  {
    assert items[i..][1..] == items[i + 1..];
    Assoc(parts, Kept(items[i]), Clean(items[i + 1..]));
  }

  lemma PartsStop(parts: seq<string>, bad: string, rest: seq<string>)
    requires AllFine(parts) && !Fine(bad)
    ensures PartsOf((parts + [bad]) + rest) == Err(if bad == ".." then Escape else Nul)
  {
    PartsAfter(parts, [bad] + rest);
    Assoc(parts, [bad], rest);
  }

  method Parts(path: string) returns (r: Result<seq<string>>)
    ensures r == PartsOf(Comps(path))
  {
    var items := Split(path);
    var parts := [];
    for i := 0 to |items|
      invariant AllFine(parts)
      invariant Comps(path) == parts + Clean(items[i..])
    {
      var item := items[i];
      CleanStep(parts, items, i);
      if item == "" || item == "." {
        assert parts + [] == parts;
        continue;
      }
      if item == ".." {
        PartsStop(parts, item, Clean(items[i + 1..]));
        return Err(Escape);
      }
      if '\0' in item {
        PartsStop(parts, item, Clean(items[i + 1..]));
        return Err(Nul);
      }
      parts := parts + [item];
    }
    assert items[|items|..] == [] && parts + [] == parts;
    PartsWhenFine(parts);
    r := Ok(parts);
  }

  /** The path that is meant, not yet normalised. */
  function Requested(cwd: string, home: string, raw: string): (s: string)
    requires Absolute(cwd) && Absolute(home)
    ensures Absolute(s)
  {
    if raw == "~" then home
    else if "~/" <= raw then PathJoin(home, raw[2..])
    else PathJoin(cwd, raw)
  }

  /** `home` is the directory the code goes by: the caller's, or the configured one in its absence. */
  function LocalComponents(cwd: string, home: string, path: string, write: bool): Result<(string, seq<string>)>
    requires Absolute(cwd)
  {
    var home := AbsPath(cwd, home);
    var raw := Strip(path);
    var absolute := if raw == "~" then home
                    else if "~/" <= raw then PathJoin(home, raw[2..])
                    else AbsPath(cwd, raw);
    if write then
      if CommonPath(home, absolute) != home || absolute == home then Err(Outside)
      else
        var r := PartsOf(Comps(RelPath(absolute, home)));
        if r.Ok? then Ok((home, r.value)) else Err(r.error)
    else
      var r := PartsOf(Comps(absolute));
      if r.Ok? then Ok(("/", r.value)) else Err(r.error)
  }

  function JoinAll(anchor: string, parts: seq<string>): string
    decreases |parts|
  {
    if parts == [] then anchor else JoinAll(PathJoin(anchor, parts[0]), parts[1..])
  }

  function ResolveLocal(cwd: string, home: string, path: string, write: bool): Result<string>
    requires Absolute(cwd)
  {
    var r := LocalComponents(cwd, home, path, write);
    if r.Ok? then Ok(JoinAll(r.value.0, r.value.1)) else Err(r.error)
  }

  function RootedComponents(path: string): Result<seq<string>> {
    var raw := Strip(path);
    if raw in ["", "~", "/"] then Ok([]) else PartsOf(Comps(StripRoot(raw)))
  }

  function ResolveRooted(cwd: string, path: string, root: string): Result<string>
    requires Absolute(cwd)
  {
    var r := RootedComponents(path);
    if r.Ok? then Ok(JoinAll(AbsPath(cwd, root), r.value)) else Err(r.error)
  }

  // ----- Components -----

  predicate Proper(c: string) { c != "" && c != "." && '/' !in c }

  predicate AllProper(cs: seq<string>) { forall i :: 0 <= i < |cs| ==> Proper(cs[i]) }

  predicate AllFine(cs: seq<string>) { forall i :: 0 <= i < |cs| ==> Fine(cs[i]) }

  predicate NoUps(cs: seq<string>) { forall i :: 0 <= i < |cs| ==> cs[i] != ".." }

  lemma {:induction false} PartsAfter(done: seq<string>, rest: seq<string>)
    requires AllFine(done)
    ensures PartsOf(done + rest) == if PartsOf(rest).Ok? then Ok(done + PartsOf(rest).value) else PartsOf(rest)
  {
    if done == [] {
      assert done + rest == rest;
      assert PartsOf(rest).Ok? ==> done + PartsOf(rest).value == PartsOf(rest).value;
    } else {
      assert Fine(done[0]);
      assert (done + rest)[1..] == done[1..] + rest;
      PartsAfter(done[1..], rest);
      assert PartsOf(rest).Ok? ==> [done[0]] + (done[1..] + PartsOf(rest).value) == done + PartsOf(rest).value;
    }
  }

  lemma {:induction false} PartsWhenFine(cs: seq<string>)
    ensures PartsOf(cs).Ok? <==> AllFine(cs)
    ensures PartsOf(cs).Ok? ==> PartsOf(cs).value == cs
  {
    if cs != [] {
      PartsWhenFine(cs[1..]);
      assert AllFine(cs) <==> Fine(cs[0]) && AllFine(cs[1..]) by {
        if Fine(cs[0]) && AllFine(cs[1..]) {
          forall i | 0 <= i < |cs| ensures Fine(cs[i]) {
            if i > 0 { assert cs[i] == cs[1..][i - 1]; }
          }
        }
      }
    }
  }

  lemma {:induction false} CommonPrefixIsPrefix(a: seq<string>, b: seq<string>)
    ensures CommonPrefix(a, b) <= a && CommonPrefix(a, b) <= b
    ensures CommonPrefix(a, b) == a <==> a <= b
  {
    if a != [] && b != [] && a[0] == b[0] {
      CommonPrefixIsPrefix(a[1..], b[1..]);
      assert a == [a[0]] + a[1..] && b == [a[0]] + b[1..];
      if a <= b { assert b[1..][..|a| - 1] == a[1..]; }
    }
  }

  lemma SlashIs(s: string, k: nat)
    requires k <= |s| && (forall i :: 0 <= i < k ==> s[i] != '/') && (k < |s| ==> s[k] == '/')
    ensures Slash(s) == k
  {}

  lemma SlicesAround(a: string, b: string, k: nat)
    requires k <= |a|
    ensures var s := a + "/" + b;
            && s[..k] == a[..k]
            && (k < |a| ==> s[k] == a[k])
            && s[k + 1..] == if k == |a| then b else a[k + 1..] + "/" + b
  {}

  lemma SlashAround(a: string, b: string)
    ensures Slash(a + "/" + b) == Slash(a)
  {
    var s, k := a + "/" + b, Slash(a);
    assert forall i :: 0 <= i < k ==> s[i] == a[i];
    SlashIs(s, k);
  }

  lemma {:induction false} SplitAppend(a: string, b: string)
    ensures Split(a + "/" + b) == Split(a) + Split(b)
    decreases |a|
  {
    var k := Slash(a);
    SlashAround(a, b);
    SlicesAround(a, b, k);
    hide Slash;
    if k == |a| {
      assert a[..k] == a;
    } else {
      SplitAppend(a[k + 1..], b);
      assert Split(a + "/" + b) == [a[..k]] + Split(a[k + 1..] + "/" + b);
      assert Split(a) == [a[..k]] + Split(a[k + 1..]);
      Assoc([a[..k]], Split(a[k + 1..]), Split(b));
    }
  }

  lemma {:induction false} CleanAppend(a: seq<string>, b: seq<string>)
    ensures Clean(a + b) == Clean(a) + Clean(b)
  {
    if a == [] {
      assert a + b == b;
    } else {
      assert (a + b)[1..] == a[1..] + b;
      CleanAppend(a[1..], b);
    }
  }

  /** Components of a joined path. */
  lemma CompsAppend(a: string, b: string)
    ensures Comps(a + "/" + b) == Comps(a) + Comps(b)
  {
    SplitAppend(a, b);
    CleanAppend(Split(a), Split(b));
  }

  lemma CompsOfSlash(s: string)
    ensures Comps("/" + s) == Comps(s)
  {
    CompsAppend("", s);
    assert "" + "/" + s == "/" + s;
    assert Comps("") == [];
  }

  lemma SplitNoSlash(c: string)
    requires '/' !in c
    ensures Split(c) == [c]
  {
    assert c[..|c|] == c;
    SlashIs(c, |c|);
  }

  lemma {:induction false} SplitJoin(cs: seq<string>)
    requires cs != [] && forall i :: 0 <= i < |cs| ==> '/' !in cs[i]
    ensures Split(Join(cs)) == cs
  {
    SplitNoSlash(cs[0]);
    if |cs| > 1 {
      SplitAppend(cs[0], Join(cs[1..]));
      SplitJoin(cs[1..]);
    }
  }

  lemma {:induction false} CleanProper(cs: seq<string>)
    requires AllProper(cs)
    ensures Clean(cs) == cs && NonEmpty(cs) == cs
  {
    if cs != [] { CleanProper(cs[1..]); }
  }

  lemma {:induction false} NonEmptyAppend(a: seq<string>, b: seq<string>)
    ensures NonEmpty(a + b) == NonEmpty(a) + NonEmpty(b)
  {
    if a == [] {
      assert a + b == b;
    } else {
      assert (a + b)[1..] == a[1..] + b;
      NonEmptyAppend(a[1..], b);
    }
  }

  /** Joining proper components and taking them apart again is the identity. */
  lemma CompsJoin(cs: seq<string>)
    requires AllProper(cs)
    ensures Comps(Join(cs)) == cs
    ensures NonEmpty(Split(Join(cs))) == cs
  {
    if cs == [] {
      assert Split("") == [""];
    } else {
      SplitJoin(cs);
      CleanProper(cs);
    }
  }

  lemma NonEmptyOfSlash(s: string)
    ensures NonEmpty(Split("/" + s)) == NonEmpty(Split(s))
  {
    SplitAppend("", s);
    assert "" + "/" + s == "/" + s;
    SplitNoSlash("");
    NonEmptyAppend([""], Split(s));
    assert NonEmpty([""]) == [];
  }

  lemma RootedComps(root: string, cs: seq<string>)
    requires AllProper(cs) && root in ["/", "//"]
    ensures Comps(root + Join(cs)) == cs
    ensures NonEmpty(Split(root + Join(cs))) == cs
  {
    hide Split, Clean, NonEmpty, Join;
    var s := Join(cs);
    CompsJoin(cs);
    CompsOfSlash(s);
    NonEmptyOfSlash(s);
    if root == "//" {
      assert "//" + s == "/" + ("/" + s);
      CompsOfSlash("/" + s);
      NonEmptyOfSlash("/" + s);
    }
  }

  lemma {:induction false} SplitProper(s: string)
    ensures forall i :: 0 <= i < |Split(s)| ==> '/' !in Split(s)[i]
    decreases |s|
  {
    var k := Slash(s);
    if k == |s| {
      assert s[..k] == s;
    } else {
      SplitProper(s[k + 1..]);
    }
  }

  lemma {:induction false} CleanIsProper(items: seq<string>)
    requires forall i :: 0 <= i < |items| ==> '/' !in items[i]
    ensures AllProper(Clean(items))
  {
    if items != [] { CleanIsProper(items[1..]); }
  }

  lemma CompsProper(s: string)
    ensures AllProper(Comps(s))
  {
    SplitProper(s);
    CleanIsProper(Split(s));
  }

  // ----- Normal forms -----

  lemma {:induction false} ClimbSplits(done: seq<string>, a: seq<string>, b: seq<string>)
    ensures Climb(done, a + b) == Climb(Climb(done, a), b)
    decreases |a|
  {
    if a == [] {
      assert a + b == b;
    } else {
      assert (a + b)[1..] == a[1..] + b;
      ClimbSplits(if a[0] != ".." then done + [a[0]] else if done == [] then [] else done[..|done| - 1], a[1..], b);
    }
  }

  lemma {:induction false} ClimbPlain(done: seq<string>, items: seq<string>)
    requires NoUps(items)
    ensures Climb(done, items) == done + items
    decreases |items|
  {
    if items == [] {
      assert done + items == done;
    } else {
      ClimbPlain(done + [items[0]], items[1..]);
      assert done + [items[0]] + items[1..] == done + items;
    }
  }

  lemma {:induction false} ClimbKeeps(done: seq<string>, items: seq<string>)
    requires AllProper(done) && NoUps(done) && AllProper(items)
    ensures AllProper(Climb(done, items)) && NoUps(Climb(done, items))
    decreases |items|
  {
    if items != [] {
      ClimbKeeps(if items[0] != ".." then done + [items[0]] else if done == [] then [] else done[..|done| - 1],
                 items[1..]);
    }
  }

  /** A normal form has no empty, "." or ".." component, and is its own normal form. */
  lemma NormalIsNormal(s: string)
    requires Absolute(s)
    ensures AllProper(Normal(s)) && NoUps(Normal(s))
    ensures Comps(NormPath(s)) == Normal(s) == Normal(NormPath(s)) == NonEmpty(Split(NormPath(s)))
    ensures Root(NormPath(s)) == Root(s)
    ensures NormPath(NormPath(s)) == NormPath(s)
  {
    CompsProper(s);
    ClimbKeeps([], Comps(s));
    var cs := Normal(s);
    RootedComps(Root(s), cs);
    ClimbPlain([], cs);
    assert [] + cs == cs;
    RootKept(Root(s), cs);
  }

  lemma FirstOfJoin(cs: seq<string>)
    requires AllProper(cs)
    ensures cs == [] <==> Join(cs) == ""
    ensures cs != [] ==> Join(cs)[0] != '/'
  {
    if cs != [] {
      assert cs[0][0] in cs[0];
      assert Join(cs)[0] == cs[0][0];
    }
  }

  lemma RootKept(root: string, cs: seq<string>)
    requires AllProper(cs) && root in ["/", "//"]
    ensures Root(root + Join(cs)) == root
  {
    FirstOfJoin(cs);
    var s := root + Join(cs);
    if root == "/" {
      if cs != [] { assert s[1] == Join(cs)[0]; }
    } else {
      assert s[..2] == "//";
      if cs != [] { assert s[2] == Join(cs)[0]; }
    }
  }

  lemma {:induction false} LastOfJoin(cs: seq<string>)
    requires AllProper(cs) && cs != []
    ensures Join(cs) != "" && Join(cs)[|Join(cs)| - 1] != '/'
  {
    if |cs| == 1 {
      assert cs[0][|cs[0]| - 1] in cs[0];
    } else {
      LastOfJoin(cs[1..]);
    }
  }

  lemma {:induction false} JoinSnoc(cs: seq<string>, c: string)
    requires cs != []
    ensures Join(cs + [c]) == Join(cs) + "/" + c
  {
    if |cs| == 1 {
      assert cs + [c] == [cs[0], c];
    } else {
      assert (cs + [c])[1..] == cs[1..] + [c];
      JoinSnoc(cs[1..], c);
    }
  }

  lemma JoinOne(root: string, cs: seq<string>, c: string)
    requires AllProper(cs) && Proper(c) && root in ["/", "//"]
    ensures PathJoin(root + Join(cs), c) == root + Join(cs + [c])
  {
    assert !Absolute(c) by { assert c[0] in c; }
    if cs == [] {
      assert cs + [c] == [c];
      assert root + "" == root && root[|root| - 1] == '/';
    } else {
      LastOfJoin(cs);
      JoinSnoc(cs, c);
      JoinAfter(root, Join(cs), c);
    }
  }

  lemma JoinAfter(root: string, s: string, c: string)
    requires !Absolute(c) && s != "" && s[|s| - 1] != '/'
    ensures PathJoin(root + s, c) == root + (s + "/" + c)
  {
    var t := root + s;
    assert t[|t| - 1] == s[|s| - 1];
    assert t + "/" + c == root + (s + "/" + c);
  }

  lemma {:induction false} JoinParts(root: string, cs: seq<string>, parts: seq<string>)
    requires AllProper(cs) && AllProper(parts) && root in ["/", "//"]
    ensures JoinAll(root + Join(cs), parts) == root + Join(cs + parts)
    decreases |parts|
  {
    if parts == [] {
      assert cs + parts == cs;
    } else {
      JoinOne(root, cs, parts[0]);
      JoinParts(root, cs + [parts[0]], parts[1..]);
      Assoc(cs, [parts[0]], parts[1..]);
      HeadAndTail(parts);
    }
  }

  lemma CompsAfterSlash(c: string, b: string)
    ensures Comps((c + "/") + b) == Comps(c + "/") + Comps(b)
  {
    CompsAppend(c, b);
    CompsAppend(c, "");
    assert c + "/" + "" == c + "/";
    assert Comps("") == [];
    assert Comps(c) + [] == Comps(c);
  }

  /** A component put under a path. */
  lemma NormalUnder(a: string, b: string)
    requires !Absolute(b) && a != ""
    ensures Comps(PathJoin(a, b)) == Comps(a) + Comps(b)
    ensures Normal(PathJoin(a, b)) == Climb(Normal(a), Comps(b))
  {
    if a[|a| - 1] == '/' {
      assert a == a[..|a| - 1] + "/";
      CompsAfterSlash(a[..|a| - 1], b);
    } else {
      CompsAppend(a, b);
    }
    ClimbSplits([], Comps(a), Comps(b));
  }

  // ----- What the two checks of a write decide -----

  lemma CommonPathIsHome(home: string, s: string)
    requires Absolute(home) && Absolute(s) && NormPath(home) == home
    ensures CommonPath(home, s) == home <==> !DoubleSlash(home) && Comps(home) <= Comps(s)
  {
    NormalIsNormal(home);
    var cs := CommonPrefix(Comps(home), Comps(s));
    CommonPrefixIsPrefix(Comps(home), Comps(s));
    RootedComps("/", cs);
    RootKept("/", cs);
    RootKept(Root(home), Comps(home));
  }

  predicate Inside(home: string, s: string) {
    Normal(home) <= Normal(s)
  }

  function Below(home: string, s: string): seq<string>
    requires Inside(home, s)
  {
    Normal(s)[|Normal(home)|..]
  }

  lemma RouteDown(from: seq<string>, to: seq<string>)
    ensures from <= to ==> Route(from, to) == to[|from|..]
    ensures PartsOf(Route(from, to)).Ok? <==> from <= to && AllFine(to[|from|..])
    ensures PartsOf(Route(from, to)).Ok? ==> PartsOf(Route(from, to)).value == to[|from|..]
  {
    var items := Route(from, to);
    CommonPrefixIsPrefix(from, to);
    PartsWhenFine(items);
    if from <= to {
      assert items == to[|from|..];
    } else {
      assert items[0] == "..";
      assert !Fine(items[0]);
    }
  }

  lemma RelPathComps(home: string, s: string)
    requires Absolute(home) && Absolute(s)
    ensures Comps(RelPath(s, home)) == Route(Normal(home), Normal(s))
  {
    hide Normal, NormPath, CommonPrefix, Root;
    NormalIsNormal(home);
    NormalIsNormal(s);
    var items := Route(Normal(home), Normal(s));
    CommonPrefixIsPrefix(Normal(home), Normal(s));
    assert AllProper(items);
    CompsJoin(items);
    if items == [] { SplitNoSlash("."); }
  }

  lemma RelativeParts(home: string, s: string)
    requires Absolute(home) && Absolute(s)
    ensures PartsOf(Comps(RelPath(s, home))).Ok? <==> Inside(home, s) && AllFine(Below(home, s))
    ensures PartsOf(Comps(RelPath(s, home))).Ok? ==> PartsOf(Comps(RelPath(s, home))).value == Below(home, s)
  {
    RelPathComps(home, s);
    RouteDown(Normal(home), Normal(s));
  }

  lemma TextIsNormalForm(q: string)
    requires Absolute(q)
    ensures "/" + Join(Normal(q)) == NormPath(q) <==> !DoubleSlash(q)
  {
    NormalIsNormal(q);
    RootKept("/", Normal(q));
    RootKept(Root(q), Normal(q));
  }

  /** Putting back what was taken off. */
  lemma JoinedBelow(h: string, q: string)
    requires Absolute(h) && Absolute(q) && NormPath(h) == h && !DoubleSlash(h) && Inside(h, q)
    ensures JoinAll(h, Below(h, q)) == "/" + Join(Normal(q))
    ensures AllProper(Below(h, q)) && Normal(h) + Below(h, q) == Normal(q)
  {
    NormalIsNormal(h);
    NormalIsNormal(q);
    var cs, parts := Normal(h), Below(h, q);
    assert cs + parts == Normal(q);
    JoinParts("/", cs, parts);
  }

  // ----- The main results -----

  /** A write is allowed exactly when: the home directory has the ordinary root; the path as
      written (after "~/") or as normalised (otherwise) lists the components of the home directory
      first and is not textually the home directory; and the normal form is inside, without NUL. */
  lemma WriteAllowedIff(cwd: string, home: string, path: string)
    requires Absolute(cwd)
    ensures var h, raw := AbsPath(cwd, home), Strip(path);
            var q := Requested(cwd, h, raw);
            LocalComponents(cwd, home, path, true).Ok? <==>
              && !DoubleSlash(h) && Inside(h, q) && AllFine(Below(h, q))
              && if "~/" <= raw then Comps(h) <= Comps(q) && q != h
                 else Normal(q) != Normal(h) || DoubleSlash(q)
  {
    hide Normal, NormPath, CommonPath, RelPath, PathJoin, PartsOf, Comps, AllFine, Strip;
    var h, raw := AbsPath(cwd, home), Strip(path);
    AbsPathIsNormal(cwd, home);
    var q := Requested(cwd, h, raw);
    if raw == "~" || "~/" <= raw {
      CommonPathIsHome(h, q);
      RelativeParts(h, q);
    } else {
      NormalIsNormal(h);
      NormalIsNormal(q);
      NormPathIsAbsolute(q);
      CommonPathIsHome(h, NormPath(q));
      RelativeParts(h, NormPath(q));
      SameNormPath(q, h);
    }
  }

  lemma NormPathIsAbsolute(s: string)
    requires Absolute(s)
    ensures Absolute(NormPath(s))
  {}

  lemma SameNormPath(q: string, h: string)
    requires Absolute(q) && Absolute(h) && NormPath(h) == h
    ensures NormPath(q) == h <==> Normal(q) == Normal(h) && Root(q) == Root(h)
  {
    NormalIsNormal(q);
    NormalIsNormal(h);
  }

  /** After "~/", a path that is not itself absolute always lists the home directory first. */
  lemma TildeListsHome(cwd: string, home: string, raw: string)
    requires Absolute(cwd) && "~/" <= raw && !Absolute(raw[2..])
    ensures var h := AbsPath(cwd, home); Comps(h) <= Comps(Requested(cwd, h, raw))
  {
    NormalUnder(AbsPath(cwd, home), raw[2..]);
  }

  /** What a write returns: the home directory, and proper components which, put under it, are
      exactly the components of the requested path's normal form. */
  lemma WriteIsNormalForm(cwd: string, home: string, path: string)
    requires Absolute(cwd) && LocalComponents(cwd, home, path, true).Ok?
    ensures var h := AbsPath(cwd, home);
            var q := Requested(cwd, h, Strip(path));
            var parts := LocalComponents(cwd, home, path, true).value.1;
            && LocalComponents(cwd, home, path, true).value.0 == h
            && AllProper(parts) && AllFine(parts)
            && Normal(h) + parts == Normal(q)
  {
    WriteValue(cwd, home, path);
    WriteHome(cwd, home, path);
    AbsPathIsNormal(cwd, home);
    JoinedBelow(AbsPath(cwd, home), Requested(cwd, AbsPath(cwd, home), Strip(path)));
  }

  /** As text, the answer is the normal form exactly when the requested path does not start with
      exactly two slashes. */
  lemma WriteResolves(cwd: string, home: string, path: string)
    requires Absolute(cwd) && LocalComponents(cwd, home, path, true).Ok?
    ensures var q := Requested(cwd, AbsPath(cwd, home), Strip(path));
            ResolveLocal(cwd, home, path, true) == Ok(NormPath(q)) <==> !DoubleSlash(q)
  {
    WriteValue(cwd, home, path);
    WriteHome(cwd, home, path);
    AbsPathIsNormal(cwd, home);
    ResolvedBelow(AbsPath(cwd, home), Requested(cwd, AbsPath(cwd, home), Strip(path)),
                  ResolveLocal(cwd, home, path, true));
  }

  lemma WriteHome(cwd: string, home: string, path: string)
    requires Absolute(cwd) && LocalComponents(cwd, home, path, true).Ok?
    ensures !DoubleSlash(AbsPath(cwd, home))
  {
    WriteAllowedIff(cwd, home, path);
  }

  lemma AbsPathIsNormal(cwd: string, s: string)
    requires Absolute(cwd)
    ensures Absolute(AbsPath(cwd, s)) && NormPath(AbsPath(cwd, s)) == AbsPath(cwd, s)
  {
    NormalIsNormal(PathJoin(cwd, s));
  }

  lemma ResolvedBelow(h: string, q: string, r: Result<string>)
    requires Absolute(h) && Absolute(q) && NormPath(h) == h && !DoubleSlash(h) && Inside(h, q)
    requires r == Ok(JoinAll(h, Below(h, q)))
    ensures r == Ok(NormPath(q)) <==> !DoubleSlash(q)
  {
    JoinedBelow(h, q);
    TextIsNormalForm(q);
  }

  lemma WriteValue(cwd: string, home: string, path: string)
    requires Absolute(cwd) && LocalComponents(cwd, home, path, true).Ok?
    ensures var h := AbsPath(cwd, home);
            var q := Requested(cwd, h, Strip(path));
            Inside(h, q) && AllFine(Below(h, q)) && LocalComponents(cwd, home, path, true).value == (h, Below(h, q))
  {
    var h, raw := AbsPath(cwd, home), Strip(path);
    var q := Requested(cwd, h, raw);
    NormalIsNormal(q);
    RelativeParts(h, if raw == "~" || "~/" <= raw then q else NormPath(q));
  }

  /** A write can be answered with the home directory itself, although it must not address it:
      only by a path that starts with "~/", or by one with exactly two leading slashes. */
  lemma WriteToHomeItself(cwd: string, home: string, path: string)
    requires Absolute(cwd) && LocalComponents(cwd, home, path, true).Ok?
    ensures var h, raw := AbsPath(cwd, home), Strip(path);
            var q := Requested(cwd, h, raw);
            LocalComponents(cwd, home, path, true).value.1 == [] <==>
              Normal(q) == Normal(h) && ("~/" <= raw || DoubleSlash(q))
  {
    WriteAllowedIff(cwd, home, path);
    WriteIsNormalForm(cwd, home, path);
  }

  lemma WriteToHomeItselfHappens(cwd: string, home: string)
    requires Absolute(cwd)
    requires var h := AbsPath(cwd, home); !DoubleSlash(h) && Normal(h) != [] && !Space(h[|h| - 1])
    ensures var h := AbsPath(cwd, home);
            && LocalComponents(cwd, home, "~/", true) == Ok((h, []))
            && LocalComponents(cwd, home, "/" + h, true) == Ok((h, []))
  {
    TildeSlash(cwd, home);
    DoubleSlashHome(cwd, home);
  }

  lemma HomeText(cwd: string, home: string)
    requires Absolute(cwd) && !DoubleSlash(AbsPath(cwd, home)) && Normal(AbsPath(cwd, home)) != []
    ensures var h := AbsPath(cwd, home);
            && Absolute(h) && |h| >= 2 && h[1] != '/' && h[|h| - 1] != '/'
            && AllProper(Normal(h)) && Comps(h) == Normal(h)
  {
    var base := PathJoin(cwd, home);
    NormalIsNormal(base);
    RootKept(Root(base), Normal(base));
    FirstOfJoin(Normal(base));
    LastOfJoin(Normal(base));
    var h, text := AbsPath(cwd, home), Join(Normal(base));
    assert h == "/" + text;
    assert h[1] == text[0] && h[|h| - 1] == text[|text| - 1];
  }

  lemma TildeSlash(cwd: string, home: string)
    requires Absolute(cwd) && !DoubleSlash(AbsPath(cwd, home)) && Normal(AbsPath(cwd, home)) != []
    ensures LocalComponents(cwd, home, "~/", true) == Ok((AbsPath(cwd, home), []))
  {
    var h := AbsPath(cwd, home);
    HomeText(cwd, home);
    assert Strip("~/") == "~/" && "~/"[2..] == "";
    var q := Requested(cwd, h, "~/");
    assert q == h + "/" + "" && |q| == |h| + 1;
    NormalUnder(h, "");
    assert Comps("") == [];
    assert Normal(q) == Normal(h);
    AllowedIsHome(cwd, home, "~/");
  }

  lemma DoubleSlashHome(cwd: string, home: string)
    requires Absolute(cwd)
    requires var h := AbsPath(cwd, home); !DoubleSlash(h) && Normal(h) != [] && !Space(h[|h| - 1])
    ensures LocalComponents(cwd, home, "/" + AbsPath(cwd, home), true) == Ok((AbsPath(cwd, home), []))
  {
    hide Climb, Clean, Split, LocalComponents;
    var h := AbsPath(cwd, home);
    var path := "/" + h;
    HomeText(cwd, home);
    assert Strip(path) == path && DoubleSlash(path);
    CompsOfSlash(h);
    assert Requested(cwd, h, path) == path;
    AllowedIsHome(cwd, home, path);
  }

  lemma AllowedIsHome(cwd: string, home: string, path: string)
    requires Absolute(cwd) && AllProper(Normal(AbsPath(cwd, home)))
    requires var h, raw := AbsPath(cwd, home), Strip(path);
             var q := Requested(cwd, h, raw);
             && !DoubleSlash(h) && Normal(q) == Normal(h)
             && if "~/" <= raw then Comps(h) <= Comps(q) && q != h else DoubleSlash(q)
    ensures LocalComponents(cwd, home, path, true) == Ok((AbsPath(cwd, home), []))
  {
    var h := AbsPath(cwd, home);
    assert Below(h, Requested(cwd, h, Strip(path))) == [];
    WriteAllowedIff(cwd, home, path);
    WriteValue(cwd, home, path);
  }

  /** A read is allowed exactly when no component has a NUL and, after "~/", none is "..";
      it is answered with the normal form of the requested path. */
  lemma ReadIsNormalForm(cwd: string, home: string, path: string)
    requires Absolute(cwd)
    ensures var h, raw := AbsPath(cwd, home), Strip(path);
            var q := Requested(cwd, h, raw);
            var r := LocalComponents(cwd, home, path, false);
            && (r.Ok? <==> AllFine(if "~/" <= raw then Comps(q) else Normal(q)))
            && (r.Ok? ==> r.value == ("/", Normal(q)))
            && (r.Ok? ==> (ResolveLocal(cwd, home, path, false) == Ok(NormPath(q)) <==> !DoubleSlash(q)))
  {
    var h, raw := AbsPath(cwd, home), Strip(path);
    var q := Requested(cwd, h, raw);
    NormalIsNormal(PathJoin(cwd, home));
    NormalIsNormal(q);
    var cs := if "~/" <= raw then Comps(q) else Normal(q);
    PartsWhenFine(cs);
    if AllFine(cs) {
      if "~/" <= raw {
        ClimbPlain([], cs);
        assert [] + cs == cs;
      }
      JoinedAtRoot(q);
    }
  }

  lemma JoinedAtRoot(q: string)
    requires Absolute(q)
    ensures JoinAll("/", Normal(q)) == NormPath(q) <==> !DoubleSlash(q)
  {
    NormalIsNormal(q);
    JoinParts("/", [], Normal(q));
    assert [] + Normal(q) == Normal(q) && "/" + Join([]) == "/";
    TextIsNormalForm(q);
  }

  lemma {:induction false} StripRootComps(s: string)
    ensures Comps(StripRoot(s)) == Comps(s)
  {
    if Absolute(s) {
      StripRootComps(s[1..]);
      CompsOfSlash(s[1..]);
      assert s == "/" + s[1..];
    }
  }

  lemma ShortPaths()
    ensures Comps("") == [] && Comps("/") == [] && Comps("~") == ["~"]
    ensures AllFine(["~"])
  {
    SplitNoSlash("");
    CompsOfSlash("");
    assert "/" + "" == "/";
    SplitNoSlash("~");
    assert Clean(["~"]) == Kept("~") + Clean([]) == ["~"];
  }

  lemma RootedParts(path: string)
    ensures var cs := Comps(Strip(path));
            && (RootedComponents(path).Ok? <==> AllFine(cs))
            && (RootedComponents(path).Ok? ==>
                  RootedComponents(path).value == if Strip(path) == "~" then [] else cs)
  {
    var raw := Strip(path);
    ShortPaths();
    if raw !in ["", "~", "/"] {
      StripRootComps(raw);
      PartsWhenFine(Comps(raw));
    }
  }

  lemma JoinedUnder(base: string, parts: seq<string>)
    requires Absolute(base) && AllProper(parts) && NoUps(parts)
    ensures var s := JoinAll(NormPath(base), parts);
            Absolute(s) && Normal(s) == Normal(base) + parts
  {
    NormalIsNormal(base);
    var cs := Normal(base) + parts;
    JoinParts(Root(base), Normal(base), parts);
    RootedComps(Root(base), cs);
    ClimbPlain([], cs);
    assert [] + cs == cs;
  }

  /** A path taken below a root stays below it: it is refused exactly when it has a ".." or a NUL,
      and otherwise its own components follow those of the root. */
  lemma RootedStaysBelow(cwd: string, path: string, root: string)
    requires Absolute(cwd)
    ensures var cs := Comps(Strip(path));
            var r := ResolveRooted(cwd, path, root);
            && (r.Ok? <==> AllFine(cs))
            && (r.Ok? ==> (
                  && Absolute(r.value)
                  && Normal(r.value) == Normal(PathJoin(cwd, root)) + if Strip(path) == "~" then [] else cs))
  {
    var raw := Strip(path);
    CompsProper(raw);
    RootedParts(path);
    if AllFine(Comps(raw)) {
      JoinedUnder(PathJoin(cwd, root), if raw == "~" then [] else Comps(raw));
    }
  }
}
