/** Trimming a conversation by whole rounds: for a token budget before each model call, and for
    the number of messages a session keeps. */
module History {
  import opened Sequences

  datatype Role = System | User | Assistant | Tool

  /** `json`: length of the message's JSON text; Unknown when it cannot be serialised. */
  datatype Json = Length(n: nat) | Unknown

  /** `calls`: the tool calls an assistant message makes; `answers`: the one a tool message is for. */
  datatype Message = Message(role: Role, json: Json, calls: set<string>, answers: string)

  /** What a message weighs: estimated tokens, or one each. */
  datatype Unit = Tokens | Messages

  const MAX_MESSAGES := 200

  function Weight(m: Message, unit: Unit): (w: nat)
    ensures unit.Messages? || m.json.Unknown? ==> w == 1
    ensures unit.Tokens? && m.json.Length? ==> w >= 1 && m.json.n < 4 * w + 4 && (w > 1 ==> 4 * w <= m.json.n)
  {
    if unit.Messages? || m.json.Unknown? || m.json.n < 4 then 1 else m.json.n / 4
  }

  function Load(msgs: seq<Message>, unit: Unit): nat {
    if msgs == [] then 0 else Weight(msgs[0], unit) + Load(msgs[1..], unit)
  }

  function FirstUser(msgs: seq<Message>, i: nat): (k: nat)
    requires i <= |msgs|
    ensures i <= k <= |msgs|
    ensures forall j :: i <= j < k ==> !msgs[j].role.User?
    ensures k < |msgs| ==> msgs[k].role.User?
    decreases |msgs| - i
  {
    if i == |msgs| || msgs[i].role.User? then i else FirstUser(msgs, i + 1)
  }

  /** Where the history starts after its oldest round is dropped; one message is dropped when it
      has no rounds. */
  function RoundEnd(msgs: seq<Message>): (k: nat)
    requires msgs != []
    ensures 0 < k <= |msgs|
  {
    var first := FirstUser(msgs, 0);
    if first == |msgs| then 1 else FirstUser(msgs, first + 1)
  }

  function Shrink(msgs: seq<Message>, budget: int, unit: Unit): seq<Message> {
    if msgs == [] || Load(msgs, unit) <= budget || RoundEnd(msgs) == |msgs| then msgs
    else Shrink(msgs[RoundEnd(msgs)..], budget, unit)
  }

  function SystemPrefix(msgs: seq<Message>): (k: nat)
    ensures k <= |msgs|
    ensures forall i :: 0 <= i < k ==> msgs[i].role.System?
    ensures k < |msgs| ==> !msgs[k].role.System?
  {
    if msgs == [] || !msgs[0].role.System? then 0 else 1 + SystemPrefix(msgs[1..])
  }

  /** All leading system messages, then what the budget left over by them keeps of the rest. */
  function Trimmed(messages: seq<Message>, budget: int): seq<Message> {
    var k := SystemPrefix(messages);
    messages[..k] + Shrink(messages[k..], budget - Load(messages[..k], Tokens), Tokens)
  }

  // ----- The procedures -----

  method EstimateTokens(msgs: seq<Message>) returns (total: nat)
    ensures total == Load(msgs, Tokens)
  {
    total := 0;
    for i := 0 to |msgs|
      invariant total + Load(msgs[i..], Tokens) == Load(msgs, Tokens)
    {
      total := total + Weight(msgs[i], Tokens);
    }
  }

  method DropOldestRound(msgs: seq<Message>) returns (r: seq<Message>)
    ensures r == if msgs == [] then [] else msgs[RoundEnd(msgs)..]
  {
    var firstUser := |msgs|;
    for i := 0 to |msgs|
      invariant firstUser == |msgs|
      invariant FirstUser(msgs, 0) == FirstUser(msgs, i)
    {
      if msgs[i].role.User? {
        firstUser := i;
        break;
      }
    }
    if firstUser == |msgs| {
      return if msgs == [] then [] else msgs[1..];
    }
    var end := |msgs|;
    for j := firstUser + 1 to |msgs|
      invariant end == |msgs|
      invariant FirstUser(msgs, firstUser + 1) == FirstUser(msgs, j)
    {
      if msgs[j].role.User? {
        end := j;
        break;
      }
    }
    r := msgs[end..];
  }

  lemma MoveOne(head: seq<Message>, msgs: seq<Message>)
    requires msgs != []
    ensures (head + [msgs[0]]) + msgs[1..] == head + msgs
  {
  }

  method SplitSystem(messages: seq<Message>) returns (head: seq<Message>, msgs: seq<Message>)
    ensures var k := SystemPrefix(messages); head == messages[..k] && msgs == messages[k..]
  {
    msgs := messages;
    head := [];
    while msgs != [] && msgs[0].role.System?
      invariant head + msgs == messages
      invariant SystemPrefix(messages) == |head| + SystemPrefix(msgs)
    {
      MoveOne(head, msgs);
      head := head + [msgs[0]];
      msgs := msgs[1..];
    }
    assert head == messages[..|head|] && msgs == messages[|head|..];
  }

  method DropRounds(head: seq<Message>, rest: seq<Message>, budget: int) returns (msgs: seq<Message>)
    ensures msgs == Shrink(rest, budget - Load(head, Tokens), Tokens)
  {
    msgs := rest;
    ghost var left := budget - Load(head, Tokens);
    while msgs != []
      invariant Shrink(msgs, left, Tokens) == Shrink(rest, left, Tokens)
      decreases |msgs|
    {
      LoadConcat(head, msgs, Tokens);
      var tokens := EstimateTokens(head + msgs);
      if tokens <= budget { break; }
      var dropped := DropOldestRound(msgs);
      if dropped == [] || |dropped| >= |msgs| { break; }
      msgs := dropped;
    }
  }

  method TrimHistory(messages: seq<Message>, budget: int) returns (r: seq<Message>)
    ensures r == Trimmed(messages, budget)
  {
    var head, msgs := SplitSystem(messages);
    msgs := DropRounds(head, msgs, budget);
    r := head + msgs;
  }

  class Session {
    var messages: seq<Message>

    constructor ()
      ensures messages == []
    {
      messages := [];
    }

    method Trim()
      modifies this
      ensures messages == Shrink(old(messages), MAX_MESSAGES, Messages)
      ensures |old(messages)| <= 200 ==> messages == old(messages)
      ensures old(messages) != [] ==> exists k :: KeepsLongest(old(messages), messages, k, 200)
    {
      LoadIsLength(messages);
      if messages != [] {
        ghost var k := TrimKeepsLongest(messages);
      }
      while |messages| > MAX_MESSAGES
        invariant Shrink(messages, MAX_MESSAGES, Messages) == Shrink(old(messages), MAX_MESSAGES, Messages)
        decreases |messages|
      {
        LoadIsLength(messages);
        var dropped := DropOldestRound(messages);
        if dropped == [] || |dropped| >= |messages| { break; }
        messages := dropped;
      }
      LoadIsLength(messages);
    }
  }

  lemma {:induction false} LoadConcat(a: seq<Message>, b: seq<Message>, unit: Unit)
    ensures Load(a + b, unit) == Load(a, unit) + Load(b, unit)
  {
    if a == [] {
      assert a + b == b;
    } else {
      assert (a + b)[1..] == a[1..] + b;
      LoadConcat(a[1..], b, unit);
    }
  }

  lemma {:induction false} LoadIsLength(msgs: seq<Message>)
    ensures Load(msgs, Messages) == |msgs|
  {
    if msgs != [] { LoadIsLength(msgs[1..]); }
  }

  // ----- What is kept is the most that fits -----

  ghost predicate HasUser(msgs: seq<Message>) { exists i :: 0 <= i < |msgs| && msgs[i].role.User? }

  /** A history may be cut at its start and at each user message after the first one; without any
      user message, anywhere. */
  ghost predicate IsCut(msgs: seq<Message>, k: int) {
    0 <= k < |msgs| && (k == 0 || !HasUser(msgs) || (msgs[k].role.User? && HasUser(msgs[..k])))
  }

  /** Dropping a round moves to the next cut, and keeps the cuts behind it. */
  lemma NextCut(msgs: seq<Message>, k: int)
    requires msgs != []
    ensures var e := RoundEnd(msgs);
            && (0 < k < e ==> !IsCut(msgs, k))
            && (k >= e ==> (IsCut(msgs, k) <==> IsCut(msgs[e..], k - e)))
  {
    var e, f := RoundEnd(msgs), FirstUser(msgs, 0);
    if f < |msgs| {
      assert msgs[f].role.User? && HasUser(msgs);
      if 0 < k < e && HasUser(msgs[..k]) {
        var i :| 0 <= i < k && msgs[..k][i].role.User?;
        assert msgs[i].role.User?;
      }
      if e <= k < |msgs| {
        assert msgs[..k][f] == msgs[f];
        assert msgs[e..][k - e] == msgs[k] && msgs[e..][0] == msgs[e];
        assert k > e ==> msgs[e..][..k - e][0] == msgs[e];
      }
    } else {
      assert !HasUser(msgs);
      forall i | 0 <= i < |msgs[e..]| ensures !msgs[e..][i].role.User? {
        assert msgs[e..][i] == msgs[e + i];
      }
    }
  }

  lemma NoLaterCut(msgs: seq<Message>, k: int)
    requires msgs != [] && RoundEnd(msgs) == |msgs| && IsCut(msgs, k)
    ensures k == 0
  {
    NextCut(msgs, k);
  }

  ghost predicate Fits(msgs: seq<Message>, k: int, budget: int, unit: Unit) {
    0 <= k <= |msgs| && Load(msgs[k..], unit) <= budget
  }

  /** Among the cuts, k keeps the longest suffix that fits, or is the last when none does. */
  ghost predicate Best(cuts: iset<int>, fitting: iset<int>, k: int) {
    && k in cuts
    && (forall j :: j in cuts && j < k ==> j !in fitting)
    && (k !in fitting ==> forall j :: j in cuts ==> j <= k)
  }

  ghost function Cuts(msgs: seq<Message>): iset<int> { iset k | IsCut(msgs, k) }

  ghost function Fitting(msgs: seq<Message>, budget: int, unit: Unit): iset<int> {
    iset k | Fits(msgs, k, budget, unit)
  }

  lemma BestShifts(cuts: iset<int>, fitting: iset<int>, cuts': iset<int>, fitting': iset<int>,
                   e: int, k': int, k: int)
    requires k == e + k' && 0 < e && 0 in cuts && 0 !in fitting
    requires forall j :: j in cuts ==> j == 0 || (e <= j && j - e in cuts')
    requires forall j :: j in cuts' ==> e + j in cuts && 0 <= j
    requires forall j :: j in cuts' ==> (j in fitting' <==> e + j in fitting)
    requires Best(cuts', fitting', k')
    ensures Best(cuts, fitting, k)
  {
    forall j | j in cuts && j < k ensures j !in fitting {
      if j != 0 { assert j - e in cuts'; }
    }
    if k !in fitting {
      forall j | j in cuts ensures j <= k {
        if j != 0 { assert j - e in cuts'; }
      }
    }
  }

  /** Where in a history what trimming leaves of it starts. */
  function Kept(msgs: seq<Message>, budget: int, unit: Unit): (k: nat)
    ensures k <= |msgs| && (msgs != [] ==> k < |msgs|)
  {
    if msgs == [] || Load(msgs, unit) <= budget || RoundEnd(msgs) == |msgs| then 0
    else RoundEnd(msgs) + Kept(msgs[RoundEnd(msgs)..], budget, unit)
  }

  lemma {:induction false} ShrinkIsSuffix(msgs: seq<Message>, budget: int, unit: Unit)
    ensures Shrink(msgs, budget, unit) == msgs[Kept(msgs, budget, unit)..]
  {
    if msgs == [] || Load(msgs, unit) <= budget || RoundEnd(msgs) == |msgs| {
      assert msgs[0..] == msgs;
    } else {
      ShrinkIsSuffix(msgs[RoundEnd(msgs)..], budget, unit);
      OneRoundOff(msgs, budget, unit);
    }
  }

  lemma OneRoundOff(msgs: seq<Message>, budget: int, unit: Unit)
    requires msgs != [] && Load(msgs, unit) > budget && RoundEnd(msgs) < |msgs|
    ensures var rest := msgs[RoundEnd(msgs)..];
            && Shrink(msgs, budget, unit) == Shrink(rest, budget, unit)
            && rest[Kept(rest, budget, unit)..] == msgs[Kept(msgs, budget, unit)..]
  {
    hide Load, FirstUser, RoundEnd;
    DropDrop(msgs, RoundEnd(msgs), Kept(msgs[RoundEnd(msgs)..], budget, unit));
  }

  ghost predicate KeepsBest(msgs: seq<Message>, budget: int, unit: Unit) {
    Best(Cuts(msgs), Fitting(msgs, budget, unit), Kept(msgs, budget, unit))
  }

  lemma {:induction false} KeptIsBest(msgs: seq<Message>, budget: int, unit: Unit)
    requires msgs != []
    ensures KeepsBest(msgs, budget, unit)
  {
    if Load(msgs, unit) <= budget {
      WholeIsBest(msgs, budget, unit);
    } else if RoundEnd(msgs) == |msgs| {
      LastRound(msgs, budget, unit);
    } else {
      KeptIsBest(msgs[RoundEnd(msgs)..], budget, unit);
      BestOfRest(msgs, budget, unit);
    }
  }

  /** Trimming keeps the longest candidate that fits, or the last one when none fits. */
  lemma ShrinkIsBest(msgs: seq<Message>, budget: int, unit: Unit) returns (k: int)
    requires msgs != []
    ensures 0 <= k < |msgs| && Best(Cuts(msgs), Fitting(msgs, budget, unit), k)
    ensures Shrink(msgs, budget, unit) == msgs[k..]
  {
    k := Kept(msgs, budget, unit);
    ShrinkIsSuffix(msgs, budget, unit);
    KeptIsBest(msgs, budget, unit);
  }

  lemma WholeIsBest(msgs: seq<Message>, budget: int, unit: Unit)
    requires msgs != [] && Load(msgs, unit) <= budget
    ensures KeepsBest(msgs, budget, unit)
  {
    assert msgs[0..] == msgs;
    assert 0 in Cuts(msgs) && 0 in Fitting(msgs, budget, unit);
  }

  lemma LastRound(msgs: seq<Message>, budget: int, unit: Unit)
    requires msgs != [] && RoundEnd(msgs) == |msgs| && Load(msgs, unit) > budget
    ensures KeepsBest(msgs, budget, unit)
  {
    forall j | j in Cuts(msgs) ensures j <= 0 { NoLaterCut(msgs, j); }
  }

  lemma WholeIsCut(msgs: seq<Message>)
    requires msgs != []
    ensures 0 in Cuts(msgs)
  {}

  lemma WholeDoesNotFit(msgs: seq<Message>, budget: int, unit: Unit)
    requires Load(msgs, unit) > budget
    ensures 0 !in Fitting(msgs, budget, unit)
  {
    assert msgs[0..] == msgs;
  }

  lemma BestOfRest(msgs: seq<Message>, budget: int, unit: Unit)
    requires msgs != [] && Load(msgs, unit) > budget && RoundEnd(msgs) < |msgs|
    requires KeepsBest(msgs[RoundEnd(msgs)..], budget, unit)
    ensures KeepsBest(msgs, budget, unit)
  {
    hide Cuts, Fitting, Best, Load, RoundEnd, IsCut, Fits;
    var e := RoundEnd(msgs);
    var rest := msgs[e..];
    CutsShift(msgs, e);
    FittingShifts(msgs, e, budget, unit);
    WholeIsCut(msgs);
    WholeDoesNotFit(msgs, budget, unit);
    BestShifts(Cuts(msgs), Fitting(msgs, budget, unit), Cuts(rest), Fitting(rest, budget, unit),
               e, Kept(rest, budget, unit), Kept(msgs, budget, unit));
  }

  lemma CutShifts(msgs: seq<Message>, e: nat, j: int)
    requires msgs != [] && e == RoundEnd(msgs)
    ensures j in Cuts(msgs) ==> j == 0 || (e <= j && j - e in Cuts(msgs[e..]))
    ensures j - e in Cuts(msgs[e..]) ==> j in Cuts(msgs)
  {
    assert IsCut(msgs[e..], j - e) ==> j >= e;
    assert IsCut(msgs, j) ==> j >= 0;
    hide IsCut, RoundEnd, HasUser;
    NextCut(msgs, j);
  }

  lemma CutsStartAtZero(msgs: seq<Message>)
    ensures forall j :: j in Cuts(msgs) ==> 0 <= j
  {}

  lemma CutsShift(msgs: seq<Message>, e: nat)
    requires msgs != [] && e == RoundEnd(msgs)
    ensures forall j :: j in Cuts(msgs) ==> j == 0 || (e <= j && j - e in Cuts(msgs[e..]))
    ensures forall j :: j in Cuts(msgs[e..]) ==> e + j in Cuts(msgs) && 0 <= j
  {
    hide Cuts, RoundEnd;
    CutsStartAtZero(msgs[e..]);
    forall j | j in Cuts(msgs) ensures j == 0 || (e <= j && j - e in Cuts(msgs[e..])) { CutShifts(msgs, e, j); }
    forall j | j in Cuts(msgs[e..]) ensures e + j in Cuts(msgs) { CutShifts(msgs, e, e + j); }
  }

  lemma FittingShifts(msgs: seq<Message>, e: nat, budget: int, unit: Unit)
    requires e <= |msgs|
    ensures forall j :: j in Cuts(msgs[e..]) ==>
              (j in Fitting(msgs[e..], budget, unit) <==> e + j in Fitting(msgs, budget, unit))
  {
    forall j | j in Cuts(msgs[e..])
      ensures j in Fitting(msgs[e..], budget, unit) <==> e + j in Fitting(msgs, budget, unit) {
      assert msgs[e..][j..] == msgs[e + j..];
    }
  }

  /** The suffix from k is the longest of at most `most` messages that starts at a cut, or starts at the
      last cut if none is that short. */
  ghost predicate KeepsLongest(msgs: seq<Message>, kept: seq<Message>, k: int, most: nat) {
    && IsCut(msgs, k) && kept == msgs[k..]
    && (forall j :: IsCut(msgs, j) && j < k ==> |msgs[j..]| > most)
    && (|kept| <= most || forall j :: IsCut(msgs, j) ==> j <= k)
  }

  lemma TrimKeepsLongest(msgs: seq<Message>) returns (k: int)
    requires msgs != []
    ensures KeepsLongest(msgs, Shrink(msgs, MAX_MESSAGES, Messages), k, 200)
  {
    k := ShrinkIsBest(msgs, MAX_MESSAGES, Messages);
    forall j | 0 <= j <= |msgs| ensures j in Fitting(msgs, MAX_MESSAGES, Messages) <==> |msgs[j..]| <= 200 {
      LoadIsLength(msgs[j..]);
    }
    assert forall j :: IsCut(msgs, j) <==> j in Cuts(msgs);
  }

  /** The trimmed history: all leading system messages, then the longest candidate that fits what
      they leave of the budget, or the last candidate when none fits. */
  lemma TrimmingIsOptimal(messages: seq<Message>, head: seq<Message>, rest: seq<Message>, budget: int) returns (k: int)
    requires head == messages[..SystemPrefix(messages)] && rest == messages[SystemPrefix(messages)..] && rest != []
    ensures 0 <= k < |rest| && Best(Cuts(rest), Affordable(head, rest, budget), k)
    ensures head + Shrink(rest, budget - Load(head, Tokens), Tokens) == head + rest[k..]
  {
    hide Best, Cuts, Fitting, Affordable, Load;
    k := ShrinkIsBest(rest, budget - Load(head, Tokens), Tokens);
    AffordableIsFitting(head, rest, budget);
    BestOfSame(Cuts(rest), Fitting(rest, budget - Load(head, Tokens), Tokens), Affordable(head, rest, budget), k);
  }

  lemma BestOfSame(cuts: iset<int>, fitting: iset<int>, affordable: iset<int>, k: int)
    requires affordable == fitting && Best(cuts, fitting, k)
    ensures Best(cuts, affordable, k)
  {
  }

  lemma AffordableIsFitting(head: seq<Message>, rest: seq<Message>, budget: int)
    ensures Affordable(head, rest, budget) == Fitting(rest, budget - Load(head, Tokens), Tokens)
  {
    forall j ensures j in Affordable(head, rest, budget) <==> j in Fitting(rest, budget - Load(head, Tokens), Tokens) {
      if 0 <= j <= |rest| { LoadConcat(head, rest[j..], Tokens); }
    }
  }

  /** Cuts that bring the whole request within the budget. */
  ghost function Affordable(head: seq<Message>, rest: seq<Message>, budget: int): iset<int> {
    iset k | 0 <= k <= |rest| && Load(head + rest[k..], Tokens) <= budget
  }

  // ----- Tool results keep their calls -----

  /** The assistant message at i, in the same round, made the call that message j answers. */
  predicate Answers(msgs: seq<Message>, i: int, j: int)
    requires 0 <= i < |msgs| && 0 <= j < |msgs|
  {
    i < j && msgs[i].role.Assistant? && msgs[j].answers in msgs[i].calls
    && forall m :: i < m < j ==> !msgs[m].role.User?
  }

  ghost predicate ToolsPaired(msgs: seq<Message>) {
    forall j :: 0 <= j < |msgs| && msgs[j].role.Tool? ==> exists i :: 0 <= i < |msgs| && Answers(msgs, i, j)
  }

  lemma CutKeepsPairs(msgs: seq<Message>, k: int)
    requires IsCut(msgs, k) && HasUser(msgs) && ToolsPaired(msgs)
    ensures ToolsPaired(msgs[k..])
  {
    var r := msgs[k..];
    forall j | 0 <= j < |r| && r[j].role.Tool? ensures exists i :: 0 <= i < |r| && Answers(r, i, j) {
      var i :| 0 <= i < |msgs| && Answers(msgs, i, k + j);
      assert msgs[k + j].role.Tool?;
      assert i >= k;
      assert Answers(r, i - k, j);
    }
  }

  /** On a history with at least one round, no kept tool message loses the assistant message that
      asked for it. */
  lemma TrimmingKeepsPairs(msgs: seq<Message>, budget: int, unit: Unit)
    requires HasUser(msgs) && ToolsPaired(msgs)
    ensures ToolsPaired(Shrink(msgs, budget, unit))
  {
    var k := ShrinkIsBest(msgs, budget, unit);
    CutKeepsPairs(msgs, k);
  }

  predicate NoTools(msgs: seq<Message>) { forall j :: 0 <= j < |msgs| ==> !msgs[j].role.Tool? }

  lemma {:induction false} LoadOfSuffix(msgs: seq<Message>, j: nat, unit: Unit)
    requires 0 < j <= |msgs|
    ensures Load(msgs[j..], unit) < Load(msgs, unit)
  {
    if j > 1 {
      LoadOfSuffix(msgs[1..], j - 1, unit);
      DropDrop(msgs, 1, j - 1);
    }
  }

  /** Without a user message some budget cuts the history anywhere. */
  lemma {:induction false} ShrinkReaches(msgs: seq<Message>, j: nat, unit: Unit)
    requires j < |msgs| && !HasUser(msgs)
    ensures Shrink(msgs, Load(msgs[j..], unit), unit) == msgs[j..]
  {
    if j == 0 {
      assert msgs[0..] == msgs;
    } else {
      LoadOfSuffix(msgs, j, unit);
      assert RoundEnd(msgs) == 1;
      DropDrop(msgs, 1, j - 1);
      forall i | 0 <= i < |msgs[1..]| ensures !msgs[1..][i].role.User? {
        assert msgs[1..][i] == msgs[i + 1];
      }
      ShrinkReaches(msgs[1..], j - 1, unit);
    }
  }

  lemma SuffixWithoutTools(msgs: seq<Message>, budget: int, unit: Unit)
    requires NoTools(msgs)
    ensures ToolsPaired(Shrink(msgs, budget, unit))
  {
    ShrinkIsSuffix(msgs, budget, unit);
  }

  /** A tool message in front has lost its call. */
  lemma ToolFirst(msgs: seq<Message>, j: nat)
    requires j < |msgs| && msgs[j].role.Tool?
    ensures !ToolsPaired(msgs[j..])
  {
    var r := msgs[j..];
    assert r[0].role.Tool?;
    assert forall i :: 0 <= i < |r| ==> !Answers(r, i, 0);
  }

  /** Whatever the budget, trimming keeps the pairs. */
  ghost predicate AlwaysPaired(msgs: seq<Message>, unit: Unit) {
    forall budget: int :: ToolsPaired(Shrink(msgs, budget, unit))
  }

  /** Exactly when trimming keeps every tool message with its call, whatever the budget: the history
      has a user message, or no tool message to lose. */
  lemma PairsKeptIff(msgs: seq<Message>, unit: Unit)
    requires ToolsPaired(msgs)
    ensures AlwaysPaired(msgs, unit) <==> HasUser(msgs) || NoTools(msgs)
  {
    if HasUser(msgs) {
      forall budget: int ensures ToolsPaired(Shrink(msgs, budget, unit)) { TrimmingKeepsPairs(msgs, budget, unit); }
    } else if NoTools(msgs) {
      forall budget: int ensures ToolsPaired(Shrink(msgs, budget, unit)) { SuffixWithoutTools(msgs, budget, unit); }
    } else {
      var j: nat :| j < |msgs| && msgs[j].role.Tool?;
      ShrinkReaches(msgs, j, unit);
      ToolFirst(msgs, j);
    }
  }

  /** System messages in front change nothing. */
  lemma SystemApart(head: seq<Message>, rest: seq<Message>)
    requires forall i :: 0 <= i < |head| ==> head[i].role.System?
    ensures ToolsPaired(head + rest) <==> ToolsPaired(rest)
  {
    var all, n := head + rest, |head|;
    forall i, j | 0 <= i < |rest| && 0 <= j < |rest| ensures Answers(all, n + i, n + j) <==> Answers(rest, i, j) {
      assert all[n + i] == rest[i] && all[n + j] == rest[j];
      if Answers(all, n + i, n + j) {
        forall m | i < m < j ensures !rest[m].role.User? { assert all[n + m] == rest[m]; }
      }
    }
    if ToolsPaired(all) {
      forall j | 0 <= j < |rest| && rest[j].role.Tool? ensures exists i :: 0 <= i < |rest| && Answers(rest, i, j) {
        assert all[n + j].role.Tool?;
        var i :| 0 <= i < |all| && Answers(all, i, n + j);
        assert Answers(rest, i - n, j);
      }
    }
    if ToolsPaired(rest) {
      forall j | 0 <= j < |all| && all[j].role.Tool? ensures exists i :: 0 <= i < |all| && Answers(all, i, j) {
        assert rest[j - n].role.Tool?;
        var i :| 0 <= i < |rest| && Answers(rest, i, j - n);
        assert Answers(all, n + i, j);
      }
    }
  }

  lemma RestOfHistory(messages: seq<Message>, k: nat)
    requires k == SystemPrefix(messages)
    ensures HasUser(messages[k..]) <==> HasUser(messages)
    ensures NoTools(messages[k..]) <==> NoTools(messages)
  {
    hide SystemPrefix;
    forall i | k <= i < |messages| ensures messages[k..][i - k] == messages[i] {}
    if HasUser(messages) {
      var i :| 0 <= i < |messages| && messages[i].role.User?;
      assert messages[k..][i - k].role.User?;
    }
    forall j | 0 <= j < |messages| && messages[j].role.Tool? ensures !NoTools(messages[k..]) {
      assert messages[k..][j - k].role.Tool?;
    }
  }

  lemma TrimmedPairs(messages: seq<Message>, budget: int)
    ensures var k := SystemPrefix(messages);
            ToolsPaired(Trimmed(messages, budget)) <==>
              ToolsPaired(Shrink(messages[k..], budget - Load(messages[..k], Tokens), Tokens))
  {
    var k := SystemPrefix(messages);
    var head, kept := messages[..k], Shrink(messages[k..], budget - Load(messages[..k], Tokens), Tokens);
    assert Trimmed(messages, budget) == head + kept;
    SystemApart(head, kept);
  }

  ghost predicate TrimmedPaired(messages: seq<Message>) {
    forall budget: int :: ToolsPaired(Trimmed(messages, budget))
  }

  /** The system messages only shift the budget. */
  lemma BudgetShifts(messages: seq<Message>)
    ensures TrimmedPaired(messages) <==> AlwaysPaired(messages[SystemPrefix(messages)..], Tokens)
  {
    hide ToolsPaired, Trimmed, Shrink, Load, SystemPrefix;
    var k := SystemPrefix(messages);
    var used := Load(messages[..k], Tokens);
    if TrimmedPaired(messages) {
      forall budget: int ensures ToolsPaired(Shrink(messages[k..], budget, Tokens)) {
        assert ToolsPaired(Trimmed(messages, budget + used));
        TrimmedPairs(messages, budget + used);
      }
    }
    if AlwaysPaired(messages[k..], Tokens) {
      forall budget: int ensures ToolsPaired(Trimmed(messages, budget)) {
        assert ToolsPaired(Shrink(messages[k..], budget - used, Tokens));
        TrimmedPairs(messages, budget);
      }
    }
  }

  /** The same for what the whole procedure returns, system messages included. */
  lemma TrimmedPairsKeptIff(messages: seq<Message>)
    requires ToolsPaired(messages)
    ensures TrimmedPaired(messages) <==> HasUser(messages) || NoTools(messages)
  {
    var k := SystemPrefix(messages);
    assert ToolsPaired(messages[k..]) by {
      assert messages[..k] + messages[k..] == messages;
      SystemApart(messages[..k], messages[k..]);
    }
    RestOfHistory(messages, k);
    BudgetShifts(messages);
    PairsKeptIff(messages[k..], Tokens);
  }

  /** Without any user message the history is cut between messages, and a tool result can be left
      without its call. */
  lemma PairsNeedRounds()
    ensures var call := Message(Assistant, Length(40), {"c"}, "");
            var answer := Message(Tool, Length(40), {}, "c");
            ToolsPaired([call, answer]) && !ToolsPaired(Shrink([call, answer], 10, Tokens))
  {
    var call := Message(Assistant, Length(40), {"c"}, "");
    var answer := Message(Tool, Length(40), {}, "c");
    var msgs := [call, answer];
    assert Answers(msgs, 0, 1);
    assert msgs[1..] == [answer];
    assert Load([answer], Tokens) == 10;
    assert Shrink(msgs, 10, Tokens) == [answer];
  }
}
