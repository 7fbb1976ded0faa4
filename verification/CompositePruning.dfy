/**
 Strategies in a row (CompositePruning in agentcook-core/src/agentcook_core/pruning.py): each one
 prunes what the one before left, and the drop counts are summed.
 */
module CompositePruning {
  import opened Messages
  import opened Seqs
  import Duplicates = DuplicatePruning
  import Relevance = RelevancePruning

  datatype Outcome = Outcome(messages: seq<Message>, droppedCount: nat)

  type Strategy = seq<Message> -> Outcome

  datatype Report = Report(messages: seq<Message>, droppedCount: nat, perStage: seq<nat>)

  function Run(strategies: seq<Strategy>, messages: seq<Message>): Report {
    if strategies == [] then Report(messages, 0, []) else
      var before := Run(strategies[..|strategies| - 1], messages);
      var result := strategies[|strategies| - 1](before.messages);
      Report(result.messages, before.droppedCount + result.droppedCount, before.perStage + [result.droppedCount])
  }

  method Prune(strategies: seq<Strategy>, messages: seq<Message>) returns (report: Report)
    ensures report == Run(strategies, messages)
  {
    var current, perStage: seq<nat> := messages, [];
    var totalDropped: nat := 0;
    for i := 0 to |strategies|
      invariant Report(current, totalDropped, perStage) == Run(strategies[..i], messages)
    {
      assert strategies[..i + 1][..i] == strategies[..i];
      var result := strategies[i](current);
      current := result.messages;
      totalDropped := totalDropped + result.droppedCount;
      perStage := perStage + [result.droppedCount];
    }
    assert strategies[..|strategies|] == strategies;
    return Report(current, totalDropped, perStage);
  }

  /** A strategy that counts what it drops. */
  ghost predicate Honest(strategy: Strategy) {
    forall messages :: strategy(messages).droppedCount + |strategy(messages).messages| == |messages|
  }

  /** The total is what is missing from the output, whatever the stages are. */
  lemma {:induction false} DropsAreConserved(strategies: seq<Strategy>, messages: seq<Message>)
    requires forall i :: 0 <= i < |strategies| ==> Honest(strategies[i])
    ensures
      var report := Run(strategies, messages);
      report.droppedCount + |report.messages| == |messages| && |report.perStage| == |strategies|
  {
    if strategies != [] {
      DropsAreConserved(strategies[..|strategies| - 1], messages);
      assert Honest(strategies[|strategies| - 1]);
    }
  }

  /** A composite of composites is the composite of all stages. */
  lemma {:induction false} StagesCompose(a: seq<Strategy>, b: seq<Strategy>, messages: seq<Message>)
    ensures
      var first := Run(a, messages);
      var second := Run(b, first.messages);
      Run(a + b, messages)
        == Report(second.messages, first.droppedCount + second.droppedCount, first.perStage + second.perStage)
  {
    if b == [] {
      assert a + b == a;
      assert Run(a, messages).perStage + [] == Run(a, messages).perStage;
    } else {
      StagesCompose(a, b[..|b| - 1], messages);
      assert (a + b)[..|a + b| - 1] == a + b[..|b| - 1];
      var first := Run(a, messages);
      var inner := Run(b[..|b| - 1], first.messages);
      var last := b[|b| - 1](inner.messages).droppedCount;
      assert first.perStage + inner.perStage + [last] == first.perStage + (inner.perStage + [last]);
    }
  }

  // ---- fixed points ------------------------------------------------------------------------------

  /** A strategy that returns fewer messages, or its input. */
  ghost predicate Shrinking(strategy: Strategy) {
    forall messages ::
      |strategy(messages).messages| < |messages| || strategy(messages).messages == messages
  }

  ghost predicate AllShrinking(strategies: seq<Strategy>) {
    forall i :: 0 <= i < |strategies| ==> Shrinking(strategies[i])
  }

  /** Every stage leaves the messages alone. */
  ghost predicate FixedByAll(strategies: seq<Strategy>, messages: seq<Message>) {
    forall i :: 0 <= i < |strategies| ==> strategies[i](messages).messages == messages
  }

  lemma {:induction false} RunShrinks(strategies: seq<Strategy>, messages: seq<Message>)
    requires AllShrinking(strategies)
    ensures |Run(strategies, messages).messages| < |messages| || Run(strategies, messages).messages == messages
  {
    if strategies != [] {
      var before := Run(strategies[..|strategies| - 1], messages).messages;
      RunShrinks(strategies[..|strategies| - 1], messages);
      assert Shrinking(strategies[|strategies| - 1]);
      assert |strategies[|strategies| - 1](before).messages| < |before|
        || strategies[|strategies| - 1](before).messages == before;
    }
  }

  /** A chain leaves messages alone exactly when each of its stages does. */
  lemma {:induction false} FixedIff(strategies: seq<Strategy>, messages: seq<Message>)
    requires AllShrinking(strategies)
    ensures Run(strategies, messages).messages == messages <==> FixedByAll(strategies, messages)
  {
    if strategies != [] {
      var front, last := strategies[..|strategies| - 1], strategies[|strategies| - 1];
      var before := Run(front, messages).messages;
      FixedIff(front, messages);
      RunShrinks(front, messages);
      assert Shrinking(last);
      assert |last(before).messages| < |before| || last(before).messages == before;
      assert FixedByAll(strategies, messages) <==> FixedByAll(front, messages) && last(messages).messages == messages;
    }
  }

  /** So a second run of a chain changes nothing exactly when every stage leaves the output of the
      first run alone. */
  lemma {:induction false} IdempotentIff(strategies: seq<Strategy>, messages: seq<Message>)
    requires AllShrinking(strategies)
    ensures
      var once := Run(strategies, messages).messages;
      Run(strategies, once).messages == once <==> FixedByAll(strategies, once)
  {
    FixedIff(strategies, Run(strategies, messages).messages);
  }

  // ---- the two strategies ------------------------------------------------------------------------

  function Outcomes(prune: seq<Message> -> seq<Message>): Strategy {
    (messages: seq<Message>) =>
      Outcome(prune(messages), if |prune(messages)| <= |messages| then |messages| - |prune(messages)| else 0)
  }

  function ByRelevance(policy: Relevance.Policy): Strategy {
    Outcomes((messages: seq<Message>) => Relevance.Pruned(policy, messages))
  }

  function ByDuplicates(sign: Duplicates.Signer, protectRecent: nat): Strategy {
    Outcomes((messages: seq<Message>) => Duplicates.Pruned(sign, protectRecent, messages))
  }

  lemma {:induction false} RelevanceShrinks(policy: Relevance.Policy)
    ensures Shrinking(ByRelevance(policy)) && Honest(ByRelevance(policy))
  {
    forall messages: seq<Message>
      ensures |Relevance.Pruned(policy, messages)| < |messages| || Relevance.Pruned(policy, messages) == messages
    {
      if Relevance.Anchor(policy, messages) != "" {
        Relevance.SurvivorsShrink(policy, Relevance.Anchor(policy, messages), |messages|, messages);
      }
    }
  }

  lemma {:induction false} DuplicatesShrink(sign: Duplicates.Signer, protectRecent: nat)
    ensures Shrinking(ByDuplicates(sign, protectRecent)) && Honest(ByDuplicates(sign, protectRecent))
  {
    forall messages: seq<Message>
      ensures |Duplicates.Pruned(sign, protectRecent, messages)| < |messages|
           || Duplicates.Pruned(sign, protectRecent, messages) == messages
    {
      Duplicates.PrunedShrinks(sign, protectRecent, messages);
    }
  }

  /** A stage of a chain as it is configured. */
  datatype Stage = Scoring(policy: Relevance.Policy) | Deduplicating(sign: Duplicates.Signer, protectRecent: nat)

  function StrategyOf(): Stage -> Strategy {
    (stage: Stage) =>
      match stage
      case Scoring(policy) => ByRelevance(policy)
      case Deduplicating(sign, protectRecent) => ByDuplicates(sign, protectRecent)
  }

  /** So for every chain of these two strategies, in any order and number: the total is what is
      missing, and it leaves messages alone, or its own output, exactly when each stage does. */
  lemma {:induction false} ChainsOfTheTwo(stages: seq<Stage>, messages: seq<Message>)
    ensures
      var chain := Map(stages, StrategyOf());
      var report := Run(chain, messages);
      && report.droppedCount + |report.messages| == |messages|
      && (report.messages == messages <==> FixedByAll(chain, messages))
      && (Run(chain, report.messages).messages == report.messages <==> FixedByAll(chain, report.messages))
  {
    var chain := Map(stages, StrategyOf());
    forall i | 0 <= i < |chain|
      ensures Shrinking(chain[i]) && Honest(chain[i])
    {
      match stages[i] {
        case Scoring(policy) => RelevanceShrinks(policy);
        case Deduplicating(sign, protectRecent) => DuplicatesShrink(sign, protectRecent);
      }
    }
    DropsAreConserved(chain, messages);
    FixedIff(chain, messages);
    IdempotentIff(chain, messages);
  }

  // ---- relevance first: idempotent ---------------------------------------------------------------

  lemma {:induction false} LastUserTextJoin(a: seq<Message>, b: seq<Message>)
    ensures Relevance.LastUserText(a + b)
         == if Relevance.LastUserText(b) != "" then Relevance.LastUserText(b) else Relevance.LastUserText(a)
  {
    if b == [] {
      assert a + b == a;
    } else {
      assert (a + b)[..|a + b| - 1] == a + b[..|b| - 1];
      LastUserTextJoin(a, b[..|b| - 1]);
    }
  }

  /** A user text repeated by the last turns kept is the last user text there. */
  lemma {:induction false} RepeatedTextIsLast(kept: seq<Message>)
    requires
      var spoken := Duplicates.WithoutTrailingCalls(kept);
      spoken != [] && spoken[|spoken| - 1].role == User && spoken[|spoken| - 1].content != ""
    ensures
      var spoken := Duplicates.WithoutTrailingCalls(kept);
      Relevance.LastUserText(kept) == spoken[|spoken| - 1].content
  {
    if Duplicates.CallOnly(kept[|kept| - 1]) {
      RepeatedTextIsLast(kept[..|kept| - 1]);
    }
  }

  lemma {:induction false} ScanKeepsLastText(sign: Duplicates.Signer, messages: seq<Message>)
    ensures Relevance.LastUserText(Duplicates.Scan(sign, messages).kept) == Relevance.LastUserText(messages)
  {
    if messages != [] {
      var front, m := messages[..|messages| - 1], messages[|messages| - 1];
      var before := Duplicates.Scan(sign, front);
      ScanKeepsLastText(sign, front);
      if Duplicates.Drops(sign, before.tracker, m) {
        if Relevance.Speaks(m) {
          Duplicates.TrackersRemember(sign, front);
          RepeatedTextIsLast(before.kept);
        }
      } else {
        assert (before.kept + [m])[..|before.kept|] == before.kept;
      }
    }
  }

  /** Duplicate pruning does not change what a later relevance pruning anchors on. */
  lemma {:induction false} DuplicatesKeepAnchor(sign: Duplicates.Signer, protectRecent: nat, policy: Relevance.Policy,
          messages: seq<Message>)
    ensures Relevance.Anchor(policy, Duplicates.Pruned(sign, protectRecent, messages))
         == Relevance.Anchor(policy, messages)
  {
    if |messages| >= 2 {
      var floor := Duplicates.Floor(protectRecent, messages);
      var front, tail := messages[..floor], messages[floor..];
      assert messages == front + tail;
      ScanKeepsLastText(sign, front);
      LastUserTextJoin(front, tail);
      LastUserTextJoin(Duplicates.Scan(sign, front).kept, tail);
    }
  }

  /** Messages that all survive relevance pruning still do when some of them are taken out: the
      others only get younger. */
  lemma {:induction false} FewerStillSurvive(policy: Relevance.Policy, anchor: string, messages: seq<Message>,
          fewer: seq<Message>)
    requires policy.minScore >= 0.0 && policy.halfLife >= 1 && Duplicates.Subsequence(fewer, messages)
    requires Relevance.Survivors(policy, anchor, |messages|, messages) == messages
    ensures Relevance.Survivors(policy, anchor, |fewer|, fewer) == fewer
  {
    forall k | 0 <= k < |fewer|
      ensures Relevance.Keeps(policy, anchor, |fewer|, k, fewer[k])
    {
      var i := Duplicates.SubsequenceOrigin(fewer, messages, k);
      Relevance.AllKept(policy, anchor, |messages|, messages, i);
      Relevance.YoungerIsKept(policy, anchor, |messages|, i, |fewer|, k, fewer[k]);
    }
    Relevance.AllSurvive(policy, anchor, |fewer|, fewer);
  }

  /** Relevance pruning followed by duplicate pruning is idempotent wherever relevance pruning is:
      what the second stage takes out neither moves the anchor nor ages a survivor. */
  lemma {:induction false} RelevanceFirstIsIdempotent(policy: Relevance.Policy, sign: Duplicates.Signer,
          protectRecent: nat, messages: seq<Message>)
    requires policy.minScore >= 0.0 && policy.halfLife >= 1
    requires Relevance.Pruned(policy, Relevance.Pruned(policy, messages)) == Relevance.Pruned(policy, messages)
    ensures
      var chain := [ByRelevance(policy), ByDuplicates(sign, protectRecent)];
      var once := Run(chain, messages).messages;
      Run(chain, once).messages == once
  {
    var chain := [ByRelevance(policy), ByDuplicates(sign, protectRecent)];
    var relevant := Relevance.Pruned(policy, messages);
    var once := Duplicates.Pruned(sign, protectRecent, relevant);
    RunOfTwo(ByRelevance(policy), ByDuplicates(sign, protectRecent), messages);
    assert Run(chain, messages).messages == once;
    RunOfTwo(ByRelevance(policy), ByDuplicates(sign, protectRecent), once);
    Duplicates.PruneIsIdempotent(sign, protectRecent, relevant);
    DuplicatesKeepAnchor(sign, protectRecent, policy, relevant);
    var anchor := Relevance.Anchor(policy, relevant);
    if anchor != "" {
      Duplicates.PrunedIsSubsequence(sign, protectRecent, relevant);
      FewerStillSurvive(policy, anchor, relevant, once);
    }
    assert Relevance.Pruned(policy, once) == once;
  }

  lemma {:induction false} RunOfTwo(a: Strategy, b: Strategy, messages: seq<Message>)
    ensures Run([a, b], messages).messages == b(a(messages).messages).messages
  {
    assert [a][..0] == [] && Run([], messages).messages == messages;
    assert Run([a], messages).messages == a(messages).messages;
    assert [a, b][..1] == [a];
  }

  // ---- duplicates first: idempotent without twins ------------------------------------------------

  function SameText(a: string, b: string): real {
    if a == b then 1.0 else 0.0
  }

  /** Two turns that duplicate pruning could take for one. */
  predicate Twins(sign: Duplicates.Signer, a: Message, b: Message) {
    || (a.role == User == b.role && a.content == b.content)
    || (Duplicates.CallOnly(a) && Duplicates.CallOnly(b) && sign(a.toolCalls) == sign(b.toolCalls))
  }

  ghost predicate NoTwins(sign: Duplicates.Signer, messages: seq<Message>) {
    forall i, j :: 0 <= i < j < |messages| ==> !Twins(sign, messages[i], messages[j])
  }

  ghost predicate NoEmptyTurns(messages: seq<Message>) {
    forall i :: 0 <= i < |messages| ==> !Duplicates.EmptyTurn(messages[i])
  }

  lemma {:induction false} FewerHaveNoTwins(sign: Duplicates.Signer, fewer: seq<Message>, messages: seq<Message>)
    requires Duplicates.Subsequence(fewer, messages) && NoTwins(sign, messages)
    ensures NoTwins(sign, fewer)
  {
    if fewer != [] && messages != [] {
      var a, b := fewer[..|fewer| - 1], messages[..|messages| - 1];
      if fewer[|fewer| - 1] == messages[|messages| - 1] && Duplicates.Subsequence(a, b) {
        FewerHaveNoTwins(sign, a, b);
        forall i | 0 <= i < |a|
          ensures !Twins(sign, fewer[i], fewer[|fewer| - 1])
        {
          var k := Duplicates.SubsequenceOrigin(a, b, i);
          assert messages[k] == fewer[i];
        }
      } else {
        FewerHaveNoTwins(sign, fewer, b);
      }
    }
  }

  lemma {:induction false} FewerHaveNoEmptyTurns(fewer: seq<Message>, messages: seq<Message>)
    requires Duplicates.Subsequence(fewer, messages) && NoEmptyTurns(messages)
    ensures NoEmptyTurns(fewer)
  {
    forall k | 0 <= k < |fewer|
      ensures !Duplicates.EmptyTurn(fewer[k])
    {
      var i := Duplicates.SubsequenceOrigin(fewer, messages, k);
    }
  }

  lemma {:induction false} SpokenIsIn(kept: seq<Message>)
    ensures Duplicates.WithoutTrailingCalls(kept) <= kept
  {
    if kept != [] && Duplicates.CallOnly(kept[|kept| - 1]) {
      SpokenIsIn(kept[..|kept| - 1]);
    }
  }

  lemma {:induction false} NoTwinIsDropped(sign: Duplicates.Signer, front: seq<Message>, m: Message)
    requires !Duplicates.EmptyTurn(m) && forall i :: 0 <= i < |front| ==> !Twins(sign, front[i], m)
    ensures !Duplicates.Drops(sign, Duplicates.Remembered(sign, front), m)
  {
    SpokenIsIn(front);
    var spoken := Duplicates.WithoutTrailingCalls(front);
    if spoken != [] {
      assert spoken[|spoken| - 1] == front[|spoken| - 1];
    }
  }

  lemma {:induction false} NextIsKept(sign: Duplicates.Signer, front: seq<Message>, m: Message)
    requires Duplicates.Scan(sign, front).kept == front
    requires !Duplicates.Drops(sign, Duplicates.Remembered(sign, front), m)
    ensures Duplicates.Scan(sign, front + [m]).kept == front + [m]
  {
    Duplicates.TrackersRemember(sign, front);
    Duplicates.ScanSnoc(sign, front, m);
  }

  /** Without twins and empty turns duplicate pruning has nothing to drop. */
  lemma {:induction false} NothingToDrop(sign: Duplicates.Signer, messages: seq<Message>)
    requires NoTwins(sign, messages) && NoEmptyTurns(messages)
    ensures Duplicates.Scan(sign, messages).kept == messages
  {
    if messages != [] {
      var front, m := messages[..|messages| - 1], messages[|messages| - 1];
      assert messages == front + [m];
      NothingToDrop(sign, front);
      NoTwinIsDropped(sign, front, m);
      NextIsKept(sign, front, m);
    }
  }

  lemma {:induction false} ShorterSubsequence(a: seq<Message>, b: seq<Message>, n: nat)
    requires Duplicates.Subsequence(a, b) && n <= |a|
    ensures n <= |b| && Duplicates.Subsequence(a[..|a| - n], b[..|b| - n])
  {
    Duplicates.FullSubsequence(a, b);
    if n == 0 {
      assert a[..|a|] == a && b[..|b|] == b;
    } else {
      WithoutLast(a, b);
      ShorterSubsequence(a[..|a| - 1], b[..|b| - 1], n - 1);
      assert a[..|a| - 1][..|a| - n] == a[..|a| - n] && b[..|b| - 1][..|b| - n] == b[..|b| - n];
    }
  }

  lemma {:induction false} WithoutLast(a: seq<Message>, b: seq<Message>)
    requires Duplicates.Subsequence(a, b) && a != []
    ensures b != [] && Duplicates.Subsequence(a[..|a| - 1], b[..|b| - 1])
  {
    if !(a[|a| - 1] == b[|b| - 1] && Duplicates.Subsequence(a[..|a| - 1], b[..|b| - 1])) {
      WithoutLast(a, b[..|b| - 1]);
    }
  }

  lemma {:induction false} SurvivorsAreSubsequence(policy: Relevance.Policy, anchor: string, total: nat,
          messages: seq<Message>)
    requires |messages| <= total
    ensures Duplicates.Subsequence(Relevance.Survivors(policy, anchor, total, messages), messages)
  {
    if messages != [] {
      var front := messages[..|messages| - 1];
      var before := Relevance.Survivors(policy, anchor, total, front);
      SurvivorsAreSubsequence(policy, anchor, total, front);
      assert (before + [messages[|messages| - 1]])[..|before|] == before && before + [] == before;
    }
  }

  lemma {:induction false} RelevanceIsSubsequence(policy: Relevance.Policy, messages: seq<Message>)
    ensures Duplicates.Subsequence(Relevance.Pruned(policy, messages), messages)
  {
    SurvivorsAreSubsequence(policy, Relevance.Anchor(policy, messages), |messages|, messages);
    Duplicates.SubsequenceOfItself(messages);
  }

  /** What may be pruned of a history. */
  function Front(protectRecent: nat, messages: seq<Message>): seq<Message> {
    messages[..Duplicates.Floor(protectRecent, messages)]
  }

  /** What duplicate pruning leaves before its protected tail has no twins and no empty turns, if the
      input had no twins there. */
  lemma {:induction false} PrunedFront(sign: Duplicates.Signer, protectRecent: nat, messages: seq<Message>)
    requires NoTwins(sign, Front(protectRecent, messages)) && |messages| >= 2
    ensures
      var pruned := Duplicates.Pruned(sign, protectRecent, messages);
      |pruned| > protectRecent ==>
        && NoTwins(sign, pruned[..|pruned| - protectRecent])
        && NoEmptyTurns(pruned[..|pruned| - protectRecent])
  {
    var pruned, front := Duplicates.Pruned(sign, protectRecent, messages), Front(protectRecent, messages);
    var kept := Duplicates.Scan(sign, front).kept;
    Duplicates.ScanShrinks(sign, front);
    Duplicates.ScanIsSubsequence(sign, front);
    Duplicates.ScanLeavesNoRepeats(sign, front);
    FewerHaveNoTwins(sign, kept, front);
    if |pruned| > protectRecent {
      assert pruned[..|pruned| - protectRecent] == kept;
    }
  }

  lemma {:induction false} FewerHaveFixedFront(sign: Duplicates.Signer, n: nat, pruned: seq<Message>,
          fewer: seq<Message>)
    requires Duplicates.Subsequence(fewer, pruned) && n < |fewer| && n <= |pruned|
    requires NoTwins(sign, pruned[..|pruned| - n]) && NoEmptyTurns(pruned[..|pruned| - n])
    ensures Duplicates.Scan(sign, fewer[..|fewer| - n]).kept == fewer[..|fewer| - n]
  {
    ShorterSubsequence(fewer, pruned, n);
    FewerHaveNoTwins(sign, fewer[..|fewer| - n], pruned[..|pruned| - n]);
    FewerHaveNoEmptyTurns(fewer[..|fewer| - n], pruned[..|pruned| - n]);
    NothingToDrop(sign, fewer[..|fewer| - n]);
  }

  lemma {:induction false} FrontStaysFixed(sign: Duplicates.Signer, protectRecent: nat, messages: seq<Message>,
          fewer: seq<Message>)
    requires NoTwins(sign, Front(protectRecent, messages)) && |fewer| >= 2 && |fewer| > protectRecent
    requires Duplicates.Subsequence(fewer, Duplicates.Pruned(sign, protectRecent, messages))
    ensures Duplicates.Scan(sign, fewer[..|fewer| - protectRecent]).kept == fewer[..|fewer| - protectRecent]
  {
    Duplicates.FullSubsequence(fewer, Duplicates.Pruned(sign, protectRecent, messages));
    Duplicates.PrunedShrinks(sign, protectRecent, messages);
    PrunedFront(sign, protectRecent, messages);
    FewerHaveFixedFront(sign, protectRecent, Duplicates.Pruned(sign, protectRecent, messages), fewer);
  }

  lemma {:induction false} CutJoins(messages: seq<Message>, n: nat)
    requires n <= |messages|
    ensures messages == messages[..n] + messages[n..] && (n == 0 ==> messages[..n] == [])
  {
  }

  lemma {:induction false} PartsAreFixed(sign: Duplicates.Signer, protectRecent: nat, fewer: seq<Message>,
          front: seq<Message>, tail: seq<Message>)
    requires fewer == front + tail && Duplicates.Scan(sign, front).kept == front
    requires |tail| <= protectRecent && (|tail| == protectRecent || front == [])
    ensures Duplicates.Pruned(sign, protectRecent, fewer) == fewer
  {
    Duplicates.PrunedOfParts(sign, protectRecent, front, tail);
  }

  /** Fewer of the messages that duplicate pruning left: it still finds nothing to drop. */
  lemma {:induction false} FewerAreFixed(sign: Duplicates.Signer, protectRecent: nat, messages: seq<Message>,
          fewer: seq<Message>)
    requires NoTwins(sign, Front(protectRecent, messages))
    requires Duplicates.Subsequence(fewer, Duplicates.Pruned(sign, protectRecent, messages))
    ensures Duplicates.Pruned(sign, protectRecent, fewer) == fewer
  {
    if |fewer| >= 2 {
      if |fewer| > protectRecent {
        FrontStaysFixed(sign, protectRecent, messages, fewer);
        CutJoins(fewer, |fewer| - protectRecent);
        PartsAreFixed(sign, protectRecent, fewer, fewer[..|fewer| - protectRecent], fewer[|fewer| - protectRecent..]);
      } else {
        CutJoins(fewer, 0);
        PartsAreFixed(sign, protectRecent, fewer, fewer[..0], fewer[0..]);
      }
    }
  }

  /** Two messages with the same role and text fare alike, and the younger one no worse. */
  lemma {:induction false} SameTextIsKept(policy: Relevance.Policy, anchor: string, total: nat, i: nat, m: Message,
          total': nat, k: nat, m': Message)
    requires policy.minScore >= 0.0 && policy.halfLife >= 1 && i < total && k < total' && total' - k <= total - i
    requires m.role == m'.role && m.content == m'.content != ""
    requires Relevance.Keeps(policy, anchor, total, i, m)
    ensures Relevance.Keeps(policy, anchor, total', k, m')
  {
    Relevance.YoungerIsKept(policy, anchor, total, i, total', k, m);
  }

  lemma {:induction false} AnchorInTail(kept: seq<Message>, front: seq<Message>, tail: seq<Message>)
    requires Relevance.LastUserText(kept + tail) == Relevance.LastUserText(front + tail) != ""
    requires Relevance.AnchorIndex(front + tail) >= |front|
    ensures |kept + tail| - Relevance.AnchorIndex(kept + tail) <= |front + tail| - Relevance.AnchorIndex(front + tail)
  {
    var a := Relevance.AnchorIndex(front + tail);
    assert (kept + tail)[|kept| + (a - |front|)] == tail[a - |front|] == (front + tail)[a];
  }

  lemma {:induction false} AnchorInFront(sign: Duplicates.Signer, kept: seq<Message>, front: seq<Message>,
          tail: seq<Message>)
    requires NoTwins(sign, front) && Duplicates.Subsequence(kept, front)
    requires Relevance.LastUserText(kept + tail) == Relevance.LastUserText(front + tail) != ""
    requires Relevance.AnchorIndex(front + tail) < |front|
    ensures |kept + tail| - Relevance.AnchorIndex(kept + tail) <= |front + tail| - Relevance.AnchorIndex(front + tail)
  {
    var a, k := Relevance.AnchorIndex(front + tail), Relevance.AnchorIndex(kept + tail);
    assert forall j :: 0 <= j < |tail| ==> (front + tail)[|front| + j] == tail[j] == (kept + tail)[|kept| + j];
    assert k < |kept|;
    var i := Duplicates.SubsequenceOrigin(kept, front, k);
    assert (kept + tail)[k] == kept[k] == front[i] == (front + tail)[i] && front[a] == (front + tail)[a];
    assert i == a;
  }

  function Tail(protectRecent: nat, messages: seq<Message>): seq<Message> {
    messages[Duplicates.Floor(protectRecent, messages)..]
  }

  lemma {:induction false} FrontAndTail(sign: Duplicates.Signer, protectRecent: nat, messages: seq<Message>)
    requires |messages| >= 2
    ensures messages == Front(protectRecent, messages) + Tail(protectRecent, messages)
    ensures Duplicates.Pruned(sign, protectRecent, messages)
         == Duplicates.Scan(sign, Front(protectRecent, messages)).kept + Tail(protectRecent, messages)
    ensures Duplicates.Subsequence(Duplicates.Scan(sign, Front(protectRecent, messages)).kept,
                                   Front(protectRecent, messages))
  {
    Duplicates.ScanIsSubsequence(sign, Front(protectRecent, messages));
  }

  /** Without twins duplicate pruning keeps the anchoring message, and takes out only others behind
      it. */
  lemma {:induction false} AnchorGetsNoOlder(sign: Duplicates.Signer, protectRecent: nat, messages: seq<Message>)
    requires NoTwins(sign, Front(protectRecent, messages)) && Relevance.LastUserText(messages) != ""
    ensures
      var pruned := Duplicates.Pruned(sign, protectRecent, messages);
      && Relevance.LastUserText(pruned) == Relevance.LastUserText(messages)
      && |pruned| - Relevance.AnchorIndex(pruned) <= |messages| - Relevance.AnchorIndex(messages)
  {
    DuplicatesKeepAnchor(sign, protectRecent, Relevance.Policy(SameText, 0.0, 0, 1, ""), messages);
    if |messages| >= 2 {
      FrontAndTail(sign, protectRecent, messages);
      var front, tail := Front(protectRecent, messages), Tail(protectRecent, messages);
      var kept := Duplicates.Scan(sign, front).kept;
      if Relevance.AnchorIndex(messages) >= |front| {
        AnchorInTail(kept, front, tail);
      } else {
        AnchorInFront(sign, kept, front, tail);
      }
    }
  }

  /** The recommended order, duplicates first, is idempotent on a history that before duplicate
      pruning's protected tail has no equal user texts and no call-only turns with equal signatures,
      and whose anchor is kept, or whose embedder finds nothing more similar to a text than that
      text. */
  lemma {:induction false} DuplicatesFirstIsIdempotent(sign: Duplicates.Signer, protectRecent: nat,
          policy: Relevance.Policy, messages: seq<Message>)
    requires policy.minScore >= 0.0 && policy.halfLife >= 1
    requires forall i, j :: 0 <= i < j < |messages| - protectRecent ==>
               var a, b := messages[i], messages[j];
               && (a.role == User == b.role ==> a.content != b.content)
               && (a.role == Assistant == b.role && a.content == "" == b.content ==>
                     a.toolCalls == [] || b.toolCalls == [] || sign(a.toolCalls) != sign(b.toolCalls))
    requires Relevance.AnchorIsKept(policy, messages) || Relevance.SelfSimilarityIsMaximal(policy)
    ensures
      var chain := [ByDuplicates(sign, protectRecent), ByRelevance(policy)];
      var once := Run(chain, messages).messages;
      Run(chain, once).messages == once
  {
    var chain := [ByDuplicates(sign, protectRecent), ByRelevance(policy)];
    var pruned := Duplicates.Pruned(sign, protectRecent, messages);
    var once := Relevance.Pruned(policy, pruned);
    RunOfTwo(chain[0], chain[1], messages);
    RunOfTwo(chain[0], chain[1], once);
    RelevanceIsSubsequence(policy, pruned);
    FewerAreFixed(sign, protectRecent, messages, once);
    AnchorStaysKept(sign, protectRecent, policy, messages);
    Relevance.PruneIsIdempotent(policy, pruned);
  }

  lemma {:induction false} AnchorStaysKept(sign: Duplicates.Signer, protectRecent: nat, policy: Relevance.Policy,
          messages: seq<Message>)
    requires policy.minScore >= 0.0 && policy.halfLife >= 1 && NoTwins(sign, Front(protectRecent, messages))
    ensures Relevance.AnchorIsKept(policy, messages) ==>
              Relevance.AnchorIsKept(policy, Duplicates.Pruned(sign, protectRecent, messages))
  {
    var pruned := Duplicates.Pruned(sign, protectRecent, messages);
    DuplicatesKeepAnchor(sign, protectRecent, policy.(anchorText := ""), messages);
    if Relevance.AnchorIsKept(policy, messages) && policy.anchorText == "" && Relevance.LastUserText(messages) != "" {
      var a, k := Relevance.AnchorIndex(messages), Relevance.AnchorIndex(pruned);
      AnchorGetsNoOlder(sign, protectRecent, messages);
      SameTextIsKept(policy, Relevance.LastUserText(messages), |messages|, a, messages[a], |pruned|, k, pruned[k]);
    }
  }

  // ---- duplicates first: not idempotent ----------------------------------------------------------

  /** The recommended order, duplicates first, does not give an idempotent chain although both of
      its stages are idempotent: once relevance pruning has removed what stood between two equal
      user messages, duplicate pruning has work again. */
  lemma {:induction false} ChainIsNotIdempotent(sign: Duplicates.Signer)
    ensures
      var policy := Relevance.Policy(SameText, 0.125, 0, 1, "");
      var chain := [ByDuplicates(sign, 0), ByRelevance(policy)];
      var a, x := Relevance.Turn(User, "a"), Relevance.Turn(Assistant, "x");
      && Run(chain, [a, x, a]).messages == [a, a]
      && Run(chain, [a, a]).messages == [a]
  {
    var policy := Relevance.Policy(SameText, 0.125, 0, 1, "");
    var a, x := Relevance.Turn(User, "a"), Relevance.Turn(Assistant, "x");
    DuplicatesMissTheGap(sign, a, x);
    RelevanceClosesTheGap(a, x);
    OneIsRelevant(a);
    RunOfTwo(ByDuplicates(sign, 0), ByRelevance(policy), [a, x, a]);
    RunOfTwo(ByDuplicates(sign, 0), ByRelevance(policy), [a, a]);
  }

  lemma {:induction false} OneIsRelevant(a: Message)
    requires a == Relevance.Turn(User, "a")
    ensures Relevance.Pruned(Relevance.Policy(SameText, 0.125, 0, 1, ""), [a]) == [a]
  {
    var policy := Relevance.Policy(SameText, 0.125, 0, 1, "");
    assert Relevance.Keeps(policy, "a", 1, 0, a) by {
      Scores();
    }
    assert Relevance.LastUserText([a]) == "a";
    Relevance.SurvivorsSnoc(policy, "a", 1, [], a);
    assert [] + [a] == [a];
  }

  lemma {:induction false} DuplicatesMissTheGap(sign: Duplicates.Signer, a: Message, x: Message)
    requires a == Relevance.Turn(User, "a") && x == Relevance.Turn(Assistant, "x")
    ensures Duplicates.Pruned(sign, 0, [a, x, a]) == [a, x, a]
    ensures Duplicates.Pruned(sign, 0, [a, a]) == [a]
  {
    Duplicates.ScanSnoc(sign, [], a);
    Duplicates.ScanSnoc(sign, [a], x);
    Duplicates.ScanSnoc(sign, [a, x], a);
    Duplicates.ScanSnoc(sign, [a], a);
    assert [] + [a] == [a] && [a] + [x] == [a, x] && [a, x] + [a] == [a, x, a] && [a] + [a] == [a, a];
    var messages := [a, x, a];
    assert messages[..3] == messages && messages[3..] == [] && [a, a][..2] == [a, a] && [a, a][2..] == [];
  }

  lemma {:induction false} RelevanceClosesTheGap(a: Message, x: Message)
    requires a == Relevance.Turn(User, "a") && x == Relevance.Turn(Assistant, "x")
    ensures Relevance.Pruned(Relevance.Policy(SameText, 0.125, 0, 1, ""), [a, x, a]) == [a, a]
  {
    var policy := Relevance.Policy(SameText, 0.125, 0, 1, "");
    assert
      && Relevance.Keeps(policy, "a", 3, 0, a) && !Relevance.Keeps(policy, "a", 3, 1, x)
      && Relevance.Keeps(policy, "a", 3, 2, a)
    by {
      Scores();
    }
    SurvivorsAround(policy, a, x);
    assert Relevance.LastUserText([a, x, a]) == "a";
  }

  lemma {:induction false} SurvivorsAround(policy: Relevance.Policy, a: Message, x: Message)
    requires Relevance.Keeps(policy, "a", 3, 0, a) && !Relevance.Keeps(policy, "a", 3, 1, x)
    requires Relevance.Keeps(policy, "a", 3, 2, a)
    ensures Relevance.Survivors(policy, "a", 3, [a, x, a]) == [a, a]
  {
    assert Relevance.Survivors(policy, "a", 3, [a]) == [a] by {
      Relevance.SurvivorsSnoc(policy, "a", 3, [], a);
      assert [] + [a] == [a];
    }
    assert Relevance.Survivors(policy, "a", 3, [a, x]) == [a] by {
      Relevance.SurvivorsSnoc(policy, "a", 3, [a], x);
      assert [a] + [x] == [a, x] && [a] + [] == [a];
    }
    Relevance.SurvivorsSnoc(policy, "a", 3, [a, x], a);
    assert [a, x] + [a] == [a, x, a] && [a] + [a] == [a, a];
  }

  lemma {:induction false} Scores()
    ensures Relevance.Passes(SameText("a", "a"), 0.125, 2, 1)
    ensures Relevance.Passes(SameText("a", "a"), 0.125, 0, 1)
    ensures !Relevance.Passes(SameText("a", "x"), 0.125, 1, 1)
  {
    assert Relevance.Pow(1.0, 1) == 1.0 * Relevance.Pow(1.0, 0);
    assert Relevance.Pow(0.0, 1) == 0.0 * Relevance.Pow(0.0, 0);
    assert Relevance.Pow(0.125, 1) == 0.125 * Relevance.Pow(0.125, 0);
    assert Relevance.Pow(2.0, 1) == 2.0 * Relevance.Pow(2.0, 0);
    assert Relevance.Pow(2.0, 2) == 2.0 * Relevance.Pow(2.0, 1);
  }
}
