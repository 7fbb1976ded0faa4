/**
 Token-budget pruning (agentcook-core/src/agentcook_core/compaction.py): keep the preamble, a
 minimum of recent turns, and then as many earlier turns as the budget allows.
 */
module TokenBudget {
  import opened Wrappers
  import opened Seqs
  import opened Messages
  import Decimal

  // ---- counting ---------------------------------------------------------------------------

  /** An injected token counter, and the printed form of an argument dictionary. */
  datatype Tokenizer = Tokenizer(count: string -> nat, render: Arguments -> string)

  /** The default counter: about four characters per token, and at least one for any text. */
  function HeuristicCount(text: string): (n: nat)
    ensures n == 0 <==> text == ""
    ensures 1 <= |text| < 4 ==> n == 1
    ensures |text| >= 4 ==> 4 * n <= |text| < 4 * (n + 1)
  {
    if text == "" then 0 else Max(1, |text| / 4)
  }

  function CallsCost(t: Tokenizer, calls: seq<ToolCall>): nat {
    if calls == [] then 0 else
      CallsCost(t, calls[..|calls| - 1])
      + t.count(calls[|calls| - 1].name) + t.count(t.render(calls[|calls| - 1].arguments))
  }

  function MessageCost(t: Tokenizer, m: Message): nat {
    t.count(m.content) + CallsCost(t, m.toolCalls)
  }

  function Cost(t: Tokenizer, messages: seq<Message>): nat {
    if messages == [] then 0 else
      Cost(t, messages[..|messages| - 1]) + MessageCost(t, messages[|messages| - 1])
  }

  lemma {:induction false} CostConcat(t: Tokenizer, a: seq<Message>, b: seq<Message>)
    ensures Cost(t, a + b) == Cost(t, a) + Cost(t, b)
  {
    if b == [] {
      assert a + b == a;
    } else {
      assert (a + b)[..|a + b| - 1] == a + b[..|b| - 1];
      CostConcat(t, a, b[..|b| - 1]);
    }
  }

  // ---- what is counted ------------------------------------------------------------------------

  /** All tool calls of a conversation, in order. */
  function AllCalls(messages: seq<Message>): seq<ToolCall> {
    Concat(Map(messages, (m: Message) => m.toolCalls))
  }

  lemma {:induction false} CallsCostIs(t: Tokenizer, calls: seq<ToolCall>)
    ensures CallsCost(t, calls) == Sum(Map(calls, (c: ToolCall) => t.count(c.name)))
                                 + Sum(Map(calls, (c: ToolCall) => t.count(t.render(c.arguments))))
  {
    var name, arguments := (c: ToolCall) => t.count(c.name), (c: ToolCall) => t.count(t.render(c.arguments));
    if calls != [] {
      var front := calls[..|calls| - 1];
      CallsCostIs(t, front);
      assert Map(calls, name)[..|front|] == Map(front, name);
      assert Map(calls, arguments)[..|front|] == Map(front, arguments);
    }
  }

  lemma {:induction false} AllCallsSnoc(front: seq<Message>, m: Message)
    ensures AllCalls(front + [m]) == AllCalls(front) + m.toolCalls
  {
    var callsOf := (m: Message) => m.toolCalls;
    MapConcat(front, [m], callsOf);
    assert Map([m], callsOf) == [m.toolCalls];
    ConcatSnoc(Map(front, callsOf), m.toolCalls);
  }

  /** A conversation costs what its contents, the names of its tool calls and their printed
      arguments cost, each counted on its own. */
  lemma {:induction false} CostIs(t: Tokenizer, messages: seq<Message>)
    ensures Cost(t, messages) == Sum(Map(messages, (m: Message) => t.count(m.content)))
                               + Sum(Map(AllCalls(messages), (c: ToolCall) => t.count(c.name)))
                               + Sum(Map(AllCalls(messages), (c: ToolCall) => t.count(t.render(c.arguments))))
  {
    var content := (m: Message) => t.count(m.content);
    var name, arguments := (c: ToolCall) => t.count(c.name), (c: ToolCall) => t.count(t.render(c.arguments));
    if messages == [] {
      assert AllCalls([]) == [];
    } else {
      var front, m := messages[..|messages| - 1], messages[|messages| - 1];
      assert messages == front + [m];
      CostIs(t, front);
      CallsCostIs(t, m.toolCalls);
      AllCallsSnoc(front, m);
      MapConcat(AllCalls(front), m.toolCalls, name);
      MapConcat(AllCalls(front), m.toolCalls, arguments);
      SumConcat(Map(AllCalls(front), name), Map(m.toolCalls, name));
      SumConcat(Map(AllCalls(front), arguments), Map(m.toolCalls, arguments));
      assert Map(messages, content)[..|front|] == Map(front, content);
    }
  }

  /** `_count`: one pass over the messages, one inner pass over each message's tool calls. */
  method Count(t: Tokenizer, messages: seq<Message>) returns (total: nat)
    ensures total == Cost(t, messages)
  {
    total := 0;
    for i := 0 to |messages|
      invariant total == Cost(t, messages[..i])
    {
      var msg := messages[i];
      total := total + t.count(msg.content);
      for j := 0 to |msg.toolCalls|
        invariant total == Cost(t, messages[..i]) + t.count(msg.content) + CallsCost(t, msg.toolCalls[..j])
      {
        var tc := msg.toolCalls[j];
        total := total + t.count(tc.name);
        total := total + t.count(t.render(tc.arguments));
        assert msg.toolCalls[..j + 1][..j] == msg.toolCalls[..j];
      }
      assert msg.toolCalls[..|msg.toolCalls|] == msg.toolCalls;
      assert messages[..i + 1][..i] == messages[..i];
    }
    assert messages[..|messages|] == messages;
  }

  // ---- pruning ----------------------------------------------------------------------------

  /** The constructor refuses budgets below 100 tokens, which no theorem needs, and a protected tail
      below one turn, which those that need it ask for. */
  datatype Policy = Policy(
    budget: int,
    minRecent: nat,
    tokenizer: Tokenizer,
    preamble: seq<Message>,
    summarizer: Option<seq<Message> -> string>)
  {
    function Remaining(): int {
      budget - Cost(tokenizer, preamble)
    }
  }

  datatype Outcome = Outcome(messages: seq<Message>, droppedCount: nat, summaryInserted: bool)

  /** The newest `kept` messages. */
  function Tail(messages: seq<Message>, kept: nat): (tail: seq<Message>)
    requires kept <= |messages|
    ensures |tail| == kept
  {
    messages[|messages| - kept..]
  }

  lemma {:induction false} TailStep(messages: seq<Message>, kept: nat)
    requires kept < |messages|
    ensures Tail(messages, kept + 1) == [messages[|messages| - kept - 1]] + Tail(messages, kept)
  {
  }

  function TailCost(t: Tokenizer, messages: seq<Message>, kept: nat): nat
    requires kept <= |messages|
  {
    Cost(t, Tail(messages, kept))
  }

  /** The tail of `kept` messages is the largest one the budget allows: it holds the protected
      turns; beyond them it fits, and was still below the budget one message earlier; and a
      longer tail reaches the budget, meeting it exactly only if what it adds is free. */
  ghost predicate BudgetMaximal(t: Tokenizer, messages: seq<Message>, minRecent: nat, remaining: int, kept: nat) {
    && Min(minRecent, |messages|) <= kept <= |messages|
    && (kept > minRecent ==>
          TailCost(t, messages, kept - 1) < remaining && TailCost(t, messages, kept) <= remaining)
    && (forall j {:trigger TailCost(t, messages, j)} :: kept < j <= |messages| ==>
          && TailCost(t, messages, j) >= remaining
          && (TailCost(t, messages, j) == remaining ==> TailCost(t, messages, kept) == remaining))
  }

  lemma {:induction false} TailCostMonotone(t: Tokenizer, messages: seq<Message>, j: nat, k: nat)
    requires j <= k <= |messages|
    ensures TailCost(t, messages, j) <= TailCost(t, messages, k)
  {
    var long, short := messages[|messages| - k..], messages[|messages| - j..];
    assert long == long[..k - j] + short;
    CostConcat(t, long[..k - j], short);
  }

  lemma {:induction false} TailCostStep(t: Tokenizer, messages: seq<Message>, k: nat)
    requires k < |messages|
    ensures TailCost(t, messages, k + 1) == TailCost(t, messages, k) + MessageCost(t, messages[|messages| - k - 1])
  {
    var m := messages[|messages| - k - 1];
    var tail := messages[|messages| - k..];
    assert messages[|messages| - (k + 1)..] == [m] + tail;
    CostConcat(t, [m], tail);
    SingleCost(t, m);
  }

  /** At most one tail length is budget-maximal, so the description leaves no choice. */
  lemma {:induction false} BudgetMaximalIsUnique(t: Tokenizer, messages: seq<Message>, minRecent: nat, remaining: int,
          j: nat, k: nat)
    requires BudgetMaximal(t, messages, minRecent, remaining, j)
    requires BudgetMaximal(t, messages, minRecent, remaining, k)
    ensures j == k
  {
  }

  function SummaryMessage(text: string, pruned: nat): Message {
    SystemMessage("[Context summary \U{2014} " + Decimal.Show(pruned) + " messages pruned]\n" + text,
                  map["compaction" := Text("token_budget_summary"), "covers_messages" := Number(pruned)])
  }

  /** What a call with `pruned` in front of the kept tail puts between preamble and tail. */
  function SummaryPart(policy: Policy, pruned: seq<Message>): seq<Message> {
    if pruned != [] && policy.summarizer.Some? then
      [SummaryMessage(policy.summarizer.value(pruned), |pruned|)]
    else []
  }

  /** What the docstring promises of a `compact` call, as a relation. */
  ghost predicate Promised(policy: Policy, messages: seq<Message>, r: Outcome) {
    if Cost(policy.tokenizer, messages) <= policy.budget then
      r == Outcome(messages, 0, false)
    else
      && r.droppedCount <= |messages|
      && BudgetMaximal(policy.tokenizer, messages, policy.minRecent, policy.Remaining(), |messages| - r.droppedCount)
      && var pruned := messages[..r.droppedCount];
      && r.summaryInserted == (SummaryPart(policy, pruned) != [])
      && r.messages == policy.preamble + SummaryPart(policy, pruned) + messages[r.droppedCount..]
  }

  lemma {:induction false} SingleCost(t: Tokenizer, msg: Message)
    ensures Cost(t, [msg]) == MessageCost(t, msg)
  {
    assert [msg][..0] == [];
  }

  /** What stops the greedy pass: nothing is left, the budget is met, or the next turn is too much. */
  ghost predicate Stopped(t: Tokenizer, messages: seq<Message>, minRecent: nat, remaining: int, kept: nat) {
    && kept <= |messages|
    && (kept < |messages| ==>
          && kept >= minRecent
          && (TailCost(t, messages, kept) >= remaining || TailCost(t, messages, kept + 1) > remaining))
  }

  lemma {:induction false} StoppedIsMaximal(t: Tokenizer, messages: seq<Message>, minRecent: nat, remaining: int,
          kept: nat)
    requires Stopped(t, messages, minRecent, remaining, kept)
    requires kept > minRecent ==>
      TailCost(t, messages, kept - 1) < remaining && TailCost(t, messages, kept) <= remaining
    ensures BudgetMaximal(t, messages, minRecent, remaining, kept)
  {
    forall j {:trigger TailCost(t, messages, j)} | kept < j <= |messages|
      ensures TailCost(t, messages, j) >= remaining
      ensures TailCost(t, messages, j) == remaining ==> TailCost(t, messages, kept) == remaining
    {
      TailCostMonotone(t, messages, kept, j);
      TailCostMonotone(t, messages, kept + 1, j);
    }
  }

  /** The cost of every tail, by length. */
  ghost function TailCosts(t: Tokenizer, messages: seq<Message>): (costs: seq<nat>)
    ensures |costs| == |messages| + 1
    ensures forall k :: 0 <= k <= |messages| ==> costs[k] == TailCost(t, messages, k)
  {
    seq(|messages| + 1, k requires 0 <= k <= |messages| => TailCost(t, messages, k))
  }

  /** How many messages a greedy pass keeps that holds `k` already, given the cost of every tail. */
  function GreedyFrom(costs: seq<nat>, minRecent: nat, remaining: int, k: nat): (kept: nat)
    requires k < |costs|
    ensures k <= kept < |costs|
    decreases |costs| - k
  {
    if k == |costs| - 1 || (k >= minRecent && (costs[k] >= remaining || costs[k + 1] > remaining)) then k
    else GreedyFrom(costs, minRecent, remaining, k + 1)
  }

  lemma {:induction false} GreedyIsMaximal(t: Tokenizer, messages: seq<Message>, minRecent: nat, remaining: int, k: nat)
    requires k <= |messages|
    requires k > minRecent ==> TailCost(t, messages, k - 1) < remaining && TailCost(t, messages, k) <= remaining
    ensures BudgetMaximal(t, messages, minRecent, remaining,
                          GreedyFrom(TailCosts(t, messages), minRecent, remaining, k))
    decreases |messages| - k
  {
    if GreedyFrom(TailCosts(t, messages), minRecent, remaining, k) == k {
      StoppedIsMaximal(t, messages, minRecent, remaining, k);
    } else {
      GreedyIsMaximal(t, messages, minRecent, remaining, k + 1);
    }
  }

  lemma {:induction false} TailCostsAddUp(t: Tokenizer, messages: seq<Message>)
    ensures
      var costs := TailCosts(t, messages);
      && costs[0] == 0
      && forall k :: 0 <= k < |messages| ==> costs[k + 1] == costs[k] + MessageCost(t, messages[|messages| - k - 1])
  {
    forall k | 0 <= k < |messages|
      ensures TailCost(t, messages, k + 1) == TailCost(t, messages, k) + MessageCost(t, messages[|messages| - k - 1])
    {
      TailCostStep(t, messages, k);
    }
  }

  method CountOne(t: Tokenizer, msg: Message) returns (tokens: nat)
    ensures tokens == MessageCost(t, msg)
  {
    tokens := Count(t, [msg]);
    SingleCost(t, msg);
  }

  /** The greedy pass over the reversed history. */
  method KeepRecent(t: Tokenizer, messages: seq<Message>, minRecent: nat, remaining: int)
    returns (recent: seq<Message>)
    requires minRecent >= 1
    ensures |recent| <= |messages| && recent == Tail(messages, |recent|)
    ensures BudgetMaximal(t, messages, minRecent, remaining, |recent|)
  {
    TailCostsAddUp(t, messages);
    recent := KeepWithin(t, messages, minRecent, remaining, TailCosts(t, messages));
    GreedyIsMaximal(t, messages, minRecent, remaining, 0);
  }

  /** Its loop. */
  method KeepWithin(t: Tokenizer, messages: seq<Message>, minRecent: nat, remaining: int, ghost costs: seq<nat>)
    returns (recent: seq<Message>)
    requires minRecent >= 1 && |costs| == |messages| + 1 && costs[0] == 0
    requires forall k :: 0 <= k < |messages| ==>
      costs[k + 1] == costs[k] + MessageCost(t, messages[|messages| - k - 1])
    ensures |recent| == GreedyFrom(costs, minRecent, remaining, 0) && recent == Tail(messages, |recent|)
  {
    recent := [];
    var recentTokens, i := 0, |messages|;
    while i > 0
      invariant 0 <= i <= |messages| && |recent| == |messages| - i
      invariant recent == Tail(messages, |recent|)
      invariant recentTokens == costs[|recent|]
      invariant GreedyFrom(costs, minRecent, remaining, 0) == GreedyFrom(costs, minRecent, remaining, |recent|)
      invariant |recent| >= minRecent ==> recentTokens < remaining
    {
      var msg := messages[i - 1];
      var msgTokens := CountOne(t, msg);
      TailStep(messages, |recent|);
      assert costs[|recent| + 1] == recentTokens + msgTokens;
      if |recent| < minRecent || recentTokens + msgTokens <= remaining {
        recent := [msg] + recent;
        recentTokens := recentTokens + msgTokens;
        i := i - 1;
        if |recent| >= minRecent && recentTokens >= remaining {
          break;
        }
      } else {
        break;
      }
    }
  }

  method Compact(policy: Policy, messages: seq<Message>) returns (r: Outcome)
    requires policy.minRecent >= 1
    ensures Promised(policy, messages, r)
  {
    var totalTokens := Count(policy.tokenizer, messages);
    if totalTokens <= policy.budget {
      return Outcome(messages, 0, false);
    }
    var preambleTokens := Count(policy.tokenizer, policy.preamble);
    var recent := KeepRecent(policy.tokenizer, messages, policy.minRecent, policy.budget - preambleTokens);
    var pruned := messages[..|messages| - |recent|];
    var summary: seq<Message> := [];
    if pruned != [] && policy.summarizer.Some? {
      var text := policy.summarizer.value(pruned);
      summary := [SummaryMessage(text, |pruned|)];
    }
    assert summary == SummaryPart(policy, messages[..|messages| - |recent|]);
    r := Outcome(policy.preamble + summary + recent, |pruned|, summary != []);
    KeepsPromise(policy, messages, |recent|, r);
  }

  lemma {:induction false} KeepsPromise(policy: Policy, messages: seq<Message>, kept: nat, r: Outcome)
    requires Cost(policy.tokenizer, messages) > policy.budget
    requires BudgetMaximal(policy.tokenizer, messages, policy.minRecent, policy.Remaining(), kept)
    requires
      var summary := SummaryPart(policy, messages[..|messages| - kept]);
      r == Outcome(policy.preamble + summary + Tail(messages, kept), |messages| - kept, summary != [])
    ensures Promised(policy, messages, r)
  {
  }

  // ---- what the promise means --------------------------------------------------------------

  /** The message that stands for what was pruned: right behind the preamble, with the summarizer's
      answer and how many they were; without a summarizer, or with nothing pruned, there is none. */
  lemma {:induction false} SummaryReachesOutput(policy: Policy, messages: seq<Message>, r: Outcome)
    requires Cost(policy.tokenizer, messages) > policy.budget && Promised(policy, messages, r)
    ensures
      var n := r.droppedCount;
      && n <= |messages|
      && (r.summaryInserted <==> n > 0 && policy.summarizer.Some?)
      && r.messages
           == if n > 0 && policy.summarizer.Some? then
                policy.preamble
                + [Message(System,
                           "[Context summary \U{2014} " + Decimal.Show(n) + " messages pruned]\n"
                             + policy.summarizer.value(messages[..n]),
                           None, [], None,
                           map["compaction" := Text("token_budget_summary"), "covers_messages" := Number(n)])]
                + messages[n..]
              else policy.preamble + messages[n..]
  {
    assert policy.preamble + [] == policy.preamble;
  }

  /** The relation determines the outcome. */
  lemma {:induction false} OutcomeIsDetermined(policy: Policy, messages: seq<Message>, r1: Outcome, r2: Outcome)
    requires Promised(policy, messages, r1) && Promised(policy, messages, r2)
    ensures r1 == r2
  {
    if Cost(policy.tokenizer, messages) > policy.budget {
      BudgetMaximalIsUnique(policy.tokenizer, messages, policy.minRecent, policy.Remaining(),
                            |messages| - r1.droppedCount, |messages| - r2.droppedCount);
    }
  }

  /** A longer tail that still meets the budget exactly adds nothing but free messages. */
  lemma {:induction false} LongerTailsAddOnlyFreeMessages(t: Tokenizer, messages: seq<Message>, minRecent: nat,
          remaining: int, kept: nat, j: nat)
    requires BudgetMaximal(t, messages, minRecent, remaining, kept)
    requires kept < j <= |messages| && TailCost(t, messages, j) <= remaining
    ensures forall i :: |messages| - j <= i < |messages| - kept ==> MessageCost(t, messages[i]) == 0
  {
    forall i | |messages| - j <= i < |messages| - kept
      ensures MessageCost(t, messages[i]) == 0
    {
      var k := |messages| - i - 1;
      TailCostMonotone(t, messages, kept, k);
      TailCostStep(t, messages, k);
      TailCostMonotone(t, messages, k + 1, j);
    }
  }

  /** What the output costs, part by part. */
  lemma {:induction false} OutputCost(policy: Policy, messages: seq<Message>, r: Outcome)
    requires Cost(policy.tokenizer, messages) > policy.budget
    requires Promised(policy, messages, r)
    ensures Cost(policy.tokenizer, r.messages)
         == Cost(policy.tokenizer, policy.preamble)
          + Cost(policy.tokenizer, SummaryPart(policy, messages[..r.droppedCount]))
          + TailCost(policy.tokenizer, messages, |messages| - r.droppedCount)
  {
    var summary, recent := SummaryPart(policy, messages[..r.droppedCount]), messages[r.droppedCount..];
    CostConcat(policy.tokenizer, policy.preamble, summary);
    CostConcat(policy.tokenizer, policy.preamble + summary, recent);
  }

  /** Without a summarizer an over-long history comes back within the budget exactly when the
      preamble and the protected turns alone fit: a condition known before the call. */
  lemma {:induction false} FitsIffForcedPartFits(policy: Policy, messages: seq<Message>, r: Outcome)
    requires policy.minRecent >= 1 && policy.summarizer.None?
    requires Cost(policy.tokenizer, messages) > policy.budget
    requires Promised(policy, messages, r)
    ensures Cost(policy.tokenizer, r.messages) <= policy.budget
       <==> Cost(policy.tokenizer, policy.preamble)
              + TailCost(policy.tokenizer, messages, Min(policy.minRecent, |messages|)) <= policy.budget
  {
    OutputCost(policy, messages, r);
    assert Cost(policy.tokenizer, []) == 0;
    var kept, forced := |messages| - r.droppedCount, Min(policy.minRecent, |messages|);
    ForcedPartDecides(policy.tokenizer, messages, policy.minRecent, policy.Remaining(), kept, forced);
  }

  lemma {:induction false} ForcedPartDecides(t: Tokenizer, messages: seq<Message>, minRecent: nat, remaining: int,
          kept: nat, forced: nat)
    requires BudgetMaximal(t, messages, minRecent, remaining, kept)
    requires forced == Min(minRecent, |messages|)
    ensures TailCost(t, messages, kept) <= remaining <==> TailCost(t, messages, forced) <= remaining
  {
    TailCostMonotone(t, messages, forced, kept);
  }

  /** In that case a second pass changes nothing. */
  lemma {:induction false} SecondPassIsNoop(policy: Policy, messages: seq<Message>, r: Outcome, again: Outcome)
    requires policy.minRecent >= 1 && policy.summarizer.None?
    requires Cost(policy.tokenizer, policy.preamble)
              + TailCost(policy.tokenizer, messages, Min(policy.minRecent, |messages|)) <= policy.budget
    requires Promised(policy, messages, r) && Promised(policy, r.messages, again)
    ensures again == Outcome(r.messages, 0, false)
  {
    if Cost(policy.tokenizer, messages) > policy.budget {
      FitsIffForcedPartFits(policy, messages, r);
    }
  }

  // ---- when the documented budget is kept ------------------------------------------------------

  /** The length of the tail that is kept, as a function of the input. */
  ghost function KeptTail(policy: Policy, messages: seq<Message>): (kept: nat)
    ensures kept <= |messages|
  {
    GreedyFrom(TailCosts(policy.tokenizer, messages), policy.minRecent, policy.Remaining(), 0)
  }

  /** The exact condition, for every policy, over the input alone: an over-long history comes back
      within the budget exactly when preamble, summary of what lies before the kept tail, and kept
      tail cost no more than the budget.  If preamble and protected turns fit, the summary is all
      that can go beyond it. */
  lemma {:induction false} FitsIffPartsFit(policy: Policy, messages: seq<Message>, r: Outcome)
    requires policy.minRecent >= 1 && Cost(policy.tokenizer, messages) > policy.budget
    requires Promised(policy, messages, r)
    ensures
      var kept := KeptTail(policy, messages);
      var preamble := Cost(policy.tokenizer, policy.preamble);
      var summary := Cost(policy.tokenizer, SummaryPart(policy, messages[..|messages| - kept]));
      && r.droppedCount == |messages| - kept
      && (Cost(policy.tokenizer, r.messages) <= policy.budget
          <==> preamble + summary + TailCost(policy.tokenizer, messages, kept) <= policy.budget)
      && (preamble + TailCost(policy.tokenizer, messages, Min(policy.minRecent, |messages|)) <= policy.budget
          ==> Cost(policy.tokenizer, r.messages) <= policy.budget + summary)
  {
    var kept, forced := KeptTail(policy, messages), Min(policy.minRecent, |messages|);
    KeptTailIsKept(policy, messages, r);
    OutputCost(policy, messages, r);
    ForcedPartDecides(policy.tokenizer, messages, policy.minRecent, policy.Remaining(), kept, forced);
  }

  lemma {:induction false} KeptTailIsKept(policy: Policy, messages: seq<Message>, r: Outcome)
    requires Cost(policy.tokenizer, messages) > policy.budget && Promised(policy, messages, r)
    ensures r.droppedCount == |messages| - KeptTail(policy, messages)
    ensures BudgetMaximal(policy.tokenizer, messages, policy.minRecent, policy.Remaining(), KeptTail(policy, messages))
  {
    GreedyIsMaximal(policy.tokenizer, messages, policy.minRecent, policy.Remaining(), 0);
    BudgetMaximalIsUnique(policy.tokenizer, messages, policy.minRecent, policy.Remaining(),
                          KeptTail(policy, messages), |messages| - r.droppedCount);
  }

  function SixtyEach(text: string): nat {
    if text == "" then 0 else 60
  }

  /** An input on which the condition fails although the forced part fits: the summary is added
      after the tail has filled the budget.  The forced part costs 60 of 100 tokens, the output
      120. */
  lemma {:induction false} SummaryCanExceedBudget(r: Outcome)
    requires
      var turn := Message(User, "hi", None, [], None, map[]);
      var policy := Policy(100, 1, Tokenizer(SixtyEach, (a: Arguments) => ""), [],
                           Some((pruned: seq<Message>) => "they greeted"));
      Promised(policy, [turn, turn], r)
    ensures Cost(Tokenizer(SixtyEach, (a: Arguments) => ""), r.messages) == 120
  {
    var t := Tokenizer(SixtyEach, (a: Arguments) => "");
    var turn := Message(User, "hi", None, [], None, map[]);
    var policy := Policy(100, 1, t, [], Some((pruned: seq<Message>) => "they greeted"));
    var messages := [turn, turn];
    SingleCost(t, turn);
    CostConcat(t, [turn], [turn]);
    assert messages == [turn] + [turn];
    assert TailCost(t, messages, 1) == 60 by { assert messages[1..] == [turn]; }
    assert TailCost(t, messages, 2) == 120 by { assert messages[0..] == messages; }
    assert r.droppedCount == 1;
    assert messages[..1] == [turn];
    OutputCost(policy, messages, r);
    SingleCost(t, SummaryMessage("they greeted", 1));
  }
}
