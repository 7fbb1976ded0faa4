/**
 Relevance pruning (agentcook-core/src/agentcook_core/pruning.py): messages are scored by their
 similarity to an anchor text, halved for every `halfLife` turns of age, and dropped below a
 minimum score.
 */
module RelevancePruning {
  import opened Wrappers
  import opened Seqs
  import opened Messages

  // ---- the score, without roots ------------------------------------------------------------

  function Pow(b: real, n: nat): real {
    if n == 0 then 1.0 else b * Pow(b, n - 1)
  }

  lemma {:induction false} PowNonNegative(b: real, n: nat)
    requires b >= 0.0
    ensures Pow(b, n) >= 0.0
  {
    if n > 0 {
      PowNonNegative(b, n - 1);
    }
  }

  lemma {:induction false} PowMonotone(a: real, b: real, n: nat)
    requires 0.0 <= a <= b
    ensures Pow(a, n) <= Pow(b, n)
  {
    if n > 0 {
      PowMonotone(a, b, n - 1);
      PowNonNegative(a, n - 1);
      Product(a, b, Pow(a, n - 1), Pow(b, n - 1));
    }
  }

  lemma {:induction false} Product(a: real, b: real, x: real, y: real)
    requires 0.0 <= a <= b && 0.0 <= x <= y
    ensures a * x <= b * y
  {
    assert a * x <= b * x;
    assert b * x <= b * y;
  }

  lemma {:induction false} ProductStrict(a: real, b: real, x: real, y: real)
    requires 0.0 <= a < b && 0.0 <= x < y
    ensures a * x < b * y
  {
    Product(a, a, x, y);
    Scaled(a, b, y);
  }

  lemma {:induction false} Scaled(a: real, b: real, y: real)
    requires a < b && y > 0.0
    ensures a * y < b * y
  {
  }

  lemma {:induction false} PowStrict(a: real, b: real, n: nat)
    requires 0.0 <= a < b && n >= 1
    ensures Pow(a, n) < Pow(b, n)
  {
    if n == 1 {
      Scaled(a, b, Pow(a, 0));
    } else {
      PowStrict(a, b, n - 1);
      PowNonNegative(a, n - 1);
      ProductStrict(a, b, Pow(a, n - 1), Pow(b, n - 1));
    }
  }

  lemma {:induction false} PowOfProduct(a: real, b: real, n: nat)
    ensures Pow(Times(a, b), n) == Times(Pow(a, n), Pow(b, n))
  {
    if n > 0 {
      PowOfProduct(a, b, n - 1);
      var x, y := Pow(a, n - 1), Pow(b, n - 1);
      assert (a * b) * (x * y) == (a * x) * (b * y);
    }
  }

  lemma {:induction false} TwoPowersGrow(i: nat, j: nat)
    requires i <= j
    ensures 1.0 <= Pow(2.0, i) <= Pow(2.0, j)
    decreases j
  {
    if i < j {
      TwoPowersGrow(i, j - 1);
    } else if i > 0 {
      TwoPowersGrow(i - 1, i - 1);
    }
  }

  /** `similarity * 0.5 ** (age / halfLife) >= minScore`, with both sides raised to the power of
      the half-life. */
  predicate Passes(similarity: real, minScore: real, age: nat, halfLife: nat) {
    similarity >= 0.0 && Pow(similarity, halfLife) >= Times(Pow(minScore, halfLife), Pow(2.0, age))
  }

  function Times(x: real, y: real): real {
    x * y
  }

  /** It is the decision the code takes: whatever positive number the decay factor is, as long as
      its `halfLife`-th power halves `age` times. */
  lemma {:induction false} PassesIsTheScoreTest(similarity: real, minScore: real, age: nat, halfLife: nat, decay: real)
    requires minScore >= 0.0 && halfLife >= 1
    requires decay > 0.0 && Times(Pow(decay, halfLife), Pow(2.0, age)) == 1.0
    ensures Passes(similarity, minScore, age, halfLife) <==> Times(similarity, decay) >= minScore
  {
    if similarity < 0.0 {
      NegativeScore(similarity, decay);
    } else {
      TwoPowersGrow(0, age);
      RaisedScore(similarity, minScore, halfLife, decay);
      ScaleByInverse(Pow(similarity, halfLife), Pow(decay, halfLife), Pow(minScore, halfLife), Pow(2.0, age));
    }
  }

  lemma {:induction false} NegativeScore(similarity: real, decay: real)
    requires similarity < 0.0 < decay
    ensures Times(similarity, decay) < 0.0
  {
  }

  lemma {:induction false} RaisedScore(similarity: real, minScore: real, halfLife: nat, decay: real)
    requires similarity >= 0.0 && minScore >= 0.0 && halfLife >= 1 && decay > 0.0
    ensures Times(similarity, decay) >= minScore
       <==> Times(Pow(similarity, halfLife), Pow(decay, halfLife)) >= Pow(minScore, halfLife)
  {
    var score := Times(similarity, decay);
    PowOfProduct(similarity, decay, halfLife);
    assert score >= 0.0;
    if score >= minScore {
      PowMonotone(minScore, score, halfLife);
    } else {
      PowStrict(score, minScore, halfLife);
    }
  }

  lemma {:induction false} ScaleByInverse(s: real, d: real, m: real, t: real)
    requires t >= 1.0 && Times(d, t) == 1.0
    ensures s >= Times(m, t) <==> Times(s, d) >= m
  {
    assert s * d * t == s * (d * t) == s;
    if s * d >= m {
      assert s * d * t >= m * t;
    } else {
      assert s * d * t < m * t;
    }
  }

  /** A more similar or a younger message passes wherever the other one does. */
  lemma {:induction false} PassesIsMonotone(s: real, s': real, minScore: real, age: nat, age': nat, halfLife: nat)
    requires minScore >= 0.0 && s <= s' && age' <= age
    requires Passes(s, minScore, age, halfLife)
    ensures Passes(s', minScore, age', halfLife)
  {
    PowMonotone(s, s', halfLife);
    TwoPowersGrow(age', age);
    PowNonNegative(minScore, halfLife);
    Product(Pow(minScore, halfLife), Pow(minScore, halfLife), Pow(2.0, age'), Pow(2.0, age));
  }

  // ---- the pass --------------------------------------------------------------------------------

  /** `similarity` stands for embedding two texts and comparing the vectors; an empty anchor text
      means that the anchor is inferred.  The constructor refuses minimum scores outside 0.0 to 1.0
      and half-lives below one; the theorems ask for what they need of that. */
  datatype Policy = Policy(
    similarity: (string, string) -> real,
    minScore: real,
    protectRecent: nat,
    halfLife: nat,
    anchorText: string)

  function LastUserText(messages: seq<Message>): string {
    if messages == [] then ""
    else
      var m := messages[|messages| - 1];
      if m.role == User && m.content != "" then m.content else LastUserText(messages[..|messages| - 1])
  }

  function Anchor(policy: Policy, messages: seq<Message>): string {
    if policy.anchorText != "" then policy.anchorText else LastUserText(messages)
  }

  /** Whether message `m` at position `idx` of `total` survives. */
  predicate Keeps(policy: Policy, anchor: string, total: nat, idx: nat, m: Message)
    requires idx < total
  {
    || m.role == System
    || idx + policy.protectRecent >= total
    || (if m.content == "" then m.toolCalls != []
        else Passes(policy.similarity(anchor, m.content), policy.minScore, total - 1 - idx, policy.halfLife))
  }

  /** The survivors among the first messages of a history of `total`. */
  function Survivors(policy: Policy, anchor: string, total: nat, messages: seq<Message>): (r: seq<Message>)
    requires |messages| <= total
    ensures |r| <= |messages|
  {
    if messages == [] then [] else
      var idx := |messages| - 1;
      Survivors(policy, anchor, total, messages[..idx])
      + if Keeps(policy, anchor, total, idx, messages[idx]) then [messages[idx]] else []
  }

  function Pruned(policy: Policy, messages: seq<Message>): seq<Message> {
    var anchor := Anchor(policy, messages);
    if anchor == "" then messages else Survivors(policy, anchor, |messages|, messages)
  }

  method FindAnchor(policy: Policy, messages: seq<Message>) returns (anchor: string)
    ensures anchor == Anchor(policy, messages)
  {
    if policy.anchorText != "" {
      return policy.anchorText;
    }
    var i := |messages|;
    assert messages[..i] == messages;
    while i > 0
      invariant 0 <= i <= |messages| && LastUserText(messages) == LastUserText(messages[..i])
    {
      i := i - 1;
      assert messages[..i + 1][..i] == messages[..i];
      if messages[i].role == User && messages[i].content != "" {
        return messages[i].content;
      }
    }
    return "";
  }

  method Prune(policy: Policy, messages: seq<Message>) returns (kept: seq<Message>, dropped: nat)
    ensures kept == Pruned(policy, messages)
    ensures dropped + |kept| == |messages|
  {
    if messages == [] {
      return [], 0;
    }
    var anchor := FindAnchor(policy, messages);
    if anchor == "" {
      return messages, 0;
    }
    var protectFloor := Max(0, |messages| - policy.protectRecent);
    kept, dropped := [], 0;
    for idx := 0 to |messages|
      invariant kept == Survivors(policy, anchor, |messages|, messages[..idx])
      invariant dropped + |kept| == idx
    {
      var msg := messages[idx];
      assert messages[..idx + 1][..idx] == messages[..idx];
      if msg.role == System || idx >= protectFloor {
        kept := kept + [msg];
      } else if msg.content == "" {
        if msg.toolCalls != [] {
          kept := kept + [msg];
        } else {
          dropped := dropped + 1;
        }
      } else if Passes(policy.similarity(anchor, msg.content), policy.minScore, |messages| - 1 - idx, policy.halfLife) {
        kept := kept + [msg];
      } else {
        dropped := dropped + 1;
      }
    }
    assert messages[..|messages|] == messages;
  }

  // ---- idempotence -------------------------------------------------------------------------------

  /** Where the k-th survivor stood, and that at most as many messages survive after it as there
      were: survivors only get younger. */
  lemma {:induction false} SurvivorOrigin(policy: Policy, anchor: string, total: nat, messages: seq<Message>, k: nat)
    returns (i: nat)
    requires |messages| <= total && k < |Survivors(policy, anchor, total, messages)|
    ensures
      var out := Survivors(policy, anchor, total, messages);
      k <= i < |messages| && messages[i] == out[k] && Keeps(policy, anchor, total, i, messages[i])
      && |out| - k <= |messages| - i
  {
    var idx := |messages| - 1;
    var before := Survivors(policy, anchor, total, messages[..idx]);
    if k < |before| {
      i := SurvivorOrigin(policy, anchor, total, messages[..idx], k);
    } else {
      i := idx;
    }
  }

  lemma {:induction false} AllSurvive(policy: Policy, anchor: string, total: nat, messages: seq<Message>)
    requires |messages| <= total
    requires forall k :: 0 <= k < |messages| ==> Keeps(policy, anchor, total, k, messages[k])
    ensures Survivors(policy, anchor, total, messages) == messages
  {
    if messages != [] {
      AllSurvive(policy, anchor, total, messages[..|messages| - 1]);
    }
  }

  lemma {:induction false} SurvivorsShrink(policy: Policy, anchor: string, total: nat, messages: seq<Message>)
    requires |messages| <= total
    ensures
      var out := Survivors(policy, anchor, total, messages);
      |out| < |messages| || out == messages
  {
    if messages != [] {
      SurvivorsShrink(policy, anchor, total, messages[..|messages| - 1]);
      assert messages == messages[..|messages| - 1] + [messages[|messages| - 1]];
    }
  }

  /** If everybody survives, everybody is kept. */
  lemma {:induction false} AllKept(policy: Policy, anchor: string, total: nat, messages: seq<Message>, i: nat)
    requires |messages| <= total && i < |messages|
    requires Survivors(policy, anchor, total, messages) == messages
    ensures Keeps(policy, anchor, total, i, messages[i])
  {
    var front, m := messages[..|messages| - 1], messages[|messages| - 1];
    SurvivorsShrink(policy, anchor, total, front);
    assert messages == front + [m];
    if i < |front| {
      AllKept(policy, anchor, total, front, i);
    }
  }

  /** A message that is kept is kept in any place with at most as many messages behind it. */
  lemma {:induction false} YoungerIsKept(policy: Policy, anchor: string, total: nat, i: nat, total': nat, k: nat,
          m: Message)
    requires policy.minScore >= 0.0 && policy.halfLife >= 1 && i < total && k < total' && total' - k <= total - i
    requires Keeps(policy, anchor, total, i, m)
    ensures Keeps(policy, anchor, total', k, m)
  {
    if m.role != System && m.content != "" && k + policy.protectRecent < total' {
      var s := policy.similarity(anchor, m.content);
      PassesIsMonotone(s, s, policy.minScore, total - 1 - i, total' - 1 - k, policy.halfLife);
    }
  }

  /** Scored against the same anchor, no survivor falls below the minimum: the second pass keeps
      everything. */
  lemma {:induction false} SameAnchorKeepsAll(policy: Policy, anchor: string, messages: seq<Message>)
    requires policy.minScore >= 0.0 && policy.halfLife >= 1
    ensures
      var out := Survivors(policy, anchor, |messages|, messages);
      Survivors(policy, anchor, |out|, out) == out
  {
    var out := Survivors(policy, anchor, |messages|, messages);
    forall k | 0 <= k < |out|
      ensures Keeps(policy, anchor, |out|, k, out[k])
    {
      var i := SurvivorOrigin(policy, anchor, |messages|, messages, k);
      YoungerIsKept(policy, anchor, |messages|, i, |out|, k, out[k]);
    }
    AllSurvive(policy, anchor, |out|, out);
  }

  /** The position of the anchoring user message. */
  function AnchorIndex(messages: seq<Message>): (a: nat)
    requires LastUserText(messages) != ""
    ensures a < |messages| && messages[a].role == User && messages[a].content == LastUserText(messages)
    ensures forall i :: a < i < |messages| ==> !(messages[i].role == User && messages[i].content != "")
  {
    var last := |messages| - 1;
    if messages[last].role == User && messages[last].content != "" then last else AnchorIndex(messages[..last])
  }

  /** Known before the call: the anchor is given, or there is none, or the message it comes from
      is protected or scores high enough against itself. */
  predicate AnchorIsKept(policy: Policy, messages: seq<Message>) {
    || policy.anchorText != ""
    || LastUserText(messages) == ""
    || Keeps(policy, LastUserText(messages), |messages|, AnchorIndex(messages), messages[AnchorIndex(messages)])
  }

  predicate Speaks(m: Message) {
    m.role == User && m.content != ""
  }

  lemma {:induction false} NobodySpeaks(messages: seq<Message>)
    requires forall i :: 0 <= i < |messages| ==> !Speaks(messages[i])
    ensures LastUserText(messages) == ""
  {
    if messages != [] {
      NobodySpeaks(messages[..|messages| - 1]);
    }
  }

  /** If the anchoring message survives, the survivors have the same anchor. */
  lemma {:induction false} AnchorSurvives(policy: Policy, anchor: string, total: nat, messages: seq<Message>)
    requires |messages| <= total && LastUserText(messages) != ""
    requires Keeps(policy, anchor, total, AnchorIndex(messages), messages[AnchorIndex(messages)])
    ensures LastUserText(Survivors(policy, anchor, total, messages)) == LastUserText(messages)
  {
    var front, m := messages[..|messages| - 1], messages[|messages| - 1];
    if !Speaks(m) {
      AnchorSurvives(policy, anchor, total, front);
      QuietAtTheEnd(Survivors(policy, anchor, total, front), m);
    } else {
      assert LastUserText(Survivors(policy, anchor, total, front) + [m]) == m.content;
    }
  }

  lemma {:induction false} QuietAtTheEnd(messages: seq<Message>, m: Message)
    requires !Speaks(m)
    ensures LastUserText(messages + [m]) == LastUserText(messages) == LastUserText(messages + [])
  {
    assert (messages + [m])[..|messages|] == messages && messages + [] == messages;
  }

  /** If it does not, and no text is more similar to the anchor than the anchor itself, then no
      user text survives at all. */
  lemma {:induction false} LostAnchorLeavesNone(policy: Policy, messages: seq<Message>)
    requires policy.minScore >= 0.0 && policy.halfLife >= 1 && LastUserText(messages) != ""
    requires !Keeps(policy, LastUserText(messages), |messages|, AnchorIndex(messages), messages[AnchorIndex(messages)])
    requires SelfSimilarityIsMaximal(policy)
    ensures LastUserText(Survivors(policy, LastUserText(messages), |messages|, messages)) == ""
  {
    var anchor, a := LastUserText(messages), AnchorIndex(messages);
    var out := Survivors(policy, anchor, |messages|, messages);
    forall k | 0 <= k < |out|
      ensures !Speaks(out[k])
    {
      var i := SurvivorOrigin(policy, anchor, |messages|, messages, k);
      if Speaks(out[k]) {
        assert i <= a;
        PassesIsMonotone(policy.similarity(anchor, messages[i].content), policy.similarity(anchor, anchor),
                         policy.minScore, |messages| - 1 - i, |messages| - 1 - a, policy.halfLife);
        assert false;
      }
    }
    NobodySpeaks(out);
  }

  ghost predicate SelfSimilarityIsMaximal(policy: Policy) {
    forall a, b :: policy.similarity(a, b) <= policy.similarity(a, a)
  }

  /** A second pass changes nothing, when the anchor is given or its message is kept, and also
      whenever the embedder finds no text more similar to another than that text itself. */
  lemma {:induction false} PruneIsIdempotent(policy: Policy, messages: seq<Message>)
    requires policy.minScore >= 0.0 && policy.halfLife >= 1
    requires AnchorIsKept(policy, messages) || SelfSimilarityIsMaximal(policy)
    ensures Pruned(policy, Pruned(policy, messages)) == Pruned(policy, messages)
  {
    var anchor := Anchor(policy, messages);
    if anchor != "" {
      SameAnchorKeepsAll(policy, anchor, messages);
      if policy.anchorText == "" {
        if AnchorIsKept(policy, messages) {
          AnchorSurvives(policy, anchor, |messages|, messages);
        } else {
          LostAnchorLeavesNone(policy, messages);
        }
      }
    }
  }

  /** Exactly when a second pass changes nothing: the anchor is given, missing or kept, or no user
      text is left to anchor on, or every survivor also passes, at its new age, against the older
      user text that is left. */
  lemma {:induction false} IdempotentIff(policy: Policy, messages: seq<Message>)
    requires policy.minScore >= 0.0 && policy.halfLife >= 1
    ensures
      var out := Pruned(policy, messages);
      var left := LastUserText(out);
      Pruned(policy, out) == out
      <==>
      || AnchorIsKept(policy, messages)
      || left == ""
      || forall k :: 0 <= k < |out| ==> Keeps(policy, left, |out|, k, out[k])
  {
    if AnchorIsKept(policy, messages) {
      PruneIsIdempotent(policy, messages);
    } else {
      var out := Pruned(policy, messages);
      AllSurviveIff(policy, LastUserText(out), out);
    }
  }

  lemma {:induction false} AllSurviveIff(policy: Policy, anchor: string, messages: seq<Message>)
    ensures Survivors(policy, anchor, |messages|, messages) == messages
       <==> forall k :: 0 <= k < |messages| ==> Keeps(policy, anchor, |messages|, k, messages[k])
  {
    if Survivors(policy, anchor, |messages|, messages) == messages {
      forall k | 0 <= k < |messages|
        ensures Keeps(policy, anchor, |messages|, k, messages[k])
      {
        AllKept(policy, anchor, |messages|, messages, k);
      }
    }
    if forall k :: 0 <= k < |messages| ==> Keeps(policy, anchor, |messages|, k, messages[k]) {
      AllSurvive(policy, anchor, |messages|, messages);
    }
  }

  function OddSimilarity(a: string, b: string): real {
    if a == "q" && b == "p" then 1.0 else 0.0
  }

  function Turn(role: Role, content: string): Message {
    Message(role, content, None, [], None, map[])
  }

  /** Neither condition can be dropped: an embedder that gives the anchor no similarity to itself
      loses it in the first pass, an older user message becomes the anchor, and the second pass
      drops what the first one kept. */
  lemma {:induction false} SecondPassCanDropMore()
    ensures
      var policy := Policy(OddSimilarity, 0.125, 0, 1, "");
      var p, q := Turn(User, "p"), Turn(User, "q");
      Pruned(policy, [p, q]) == [p] && Pruned(policy, [p]) == []
  {
    var policy := Policy(OddSimilarity, 0.125, 0, 1, "");
    var p, q := Turn(User, "p"), Turn(User, "q");
    assert Keeps(policy, "q", 2, 0, p) && !Keeps(policy, "q", 2, 1, q) && !Keeps(policy, "p", 1, 0, p) by {
      OddScores();
    }
    FirstSurvivesSecondDoesNot(policy, "q", p, q);
    SurvivorsSnoc(policy, "p", 1, [], p);
    assert [] + [p] == [p];
    assert LastUserText([p, q]) == "q" && LastUserText([p]) == "p";
  }

  lemma {:induction false} FirstSurvivesSecondDoesNot(policy: Policy, anchor: string, p: Message, q: Message)
    requires Keeps(policy, anchor, 2, 0, p) && !Keeps(policy, anchor, 2, 1, q)
    ensures Survivors(policy, anchor, 2, [p, q]) == [p]
  {
    SurvivorsSnoc(policy, anchor, 2, [], p);
    SurvivorsSnoc(policy, anchor, 2, [p], q);
    assert [] + [p] == [p] && [p] + [q] == [p, q] && [p] + [] == [p];
  }

  lemma {:induction false} SurvivorsSnoc(policy: Policy, anchor: string, total: nat, messages: seq<Message>, m: Message)
    requires |messages| < total
    ensures Survivors(policy, anchor, total, messages + [m])
         == Survivors(policy, anchor, total, messages) + if Keeps(policy, anchor, total, |messages|, m) then [m] else []
  {
    assert (messages + [m])[..|messages|] == messages;
  }

  lemma {:induction false} OddScores()
    ensures Passes(OddSimilarity("q", "p"), 0.125, 1, 1)
    ensures !Passes(OddSimilarity("q", "q"), 0.125, 0, 1)
    ensures !Passes(OddSimilarity("p", "p"), 0.125, 0, 1)
  {
    assert Pow(1.0, 1) == 1.0 * Pow(1.0, 0);
    assert Pow(0.0, 1) == 0.0 * Pow(0.0, 0);
    assert Pow(0.125, 1) == 0.125 * Pow(0.125, 0);
    assert Pow(2.0, 1) == 2.0 * Pow(2.0, 0);
  }

  // ---- what survives -------------------------------------------------------------------------------

  function CallsWithoutText(): Message -> bool {
    (m: Message) => m.content == "" && m.toolCalls != []
  }

  /** What is kept wherever it stands survives, in order. */
  lemma {:induction false} AlwaysKeptSurvive(policy: Policy, anchor: string, total: nat, messages: seq<Message>,
          p: Message -> bool)
    requires |messages| <= total
    requires forall idx, m :: 0 <= idx < total && p(m) ==> Keeps(policy, anchor, total, idx, m)
    ensures Filter(Survivors(policy, anchor, total, messages), p) == Filter(messages, p)
  {
    if messages != [] {
      var idx := |messages| - 1;
      var m := messages[idx];
      AlwaysKeptSurvive(policy, anchor, total, messages[..idx], p);
      assert messages == messages[..idx] + [m];
      FilterConcat(messages[..idx], [m], p);
      var before := Survivors(policy, anchor, total, messages[..idx]);
      FilterConcat(before, [m], p);
      assert Filter([m], p) == if p(m) then [m] else [];
      assert before + [] == before && Filter(before, p) + [] == Filter(before, p);
    }
  }

  /** Every system message survives, in order. */
  lemma {:induction false} SystemSurvives(policy: Policy, anchor: string, total: nat, messages: seq<Message>)
    requires |messages| <= total
    ensures Filter(Survivors(policy, anchor, total, messages), IsSystem()) == Filter(messages, IsSystem())
  {
    AlwaysKeptSurvive(policy, anchor, total, messages, IsSystem());
  }

  /** So does every turn that carries tool calls and no text; a turn with neither survives only in
      the protected tail or as a system message, and any other text before the tail only with a
      score that passes. */
  lemma {:induction false} OnlyWorthySurvive(policy: Policy, anchor: string, messages: seq<Message>)
    requires policy.minScore >= 0.0 && policy.halfLife >= 1
    ensures
      var out := Survivors(policy, anchor, |messages|, messages);
      && Filter(out, CallsWithoutText()) == Filter(messages, CallsWithoutText())
      && forall k :: 0 <= k && k + policy.protectRecent < |out| && out[k].role != System ==>
           if out[k].content == "" then out[k].toolCalls != []
           else Passes(policy.similarity(anchor, out[k].content), policy.minScore, |out| - 1 - k, policy.halfLife)
  {
    AlwaysKeptSurvive(policy, anchor, |messages|, messages, CallsWithoutText());
    var out := Survivors(policy, anchor, |messages|, messages);
    forall k | 0 <= k && k + policy.protectRecent < |out| && out[k].role != System
      ensures if out[k].content == "" then out[k].toolCalls != []
              else Passes(policy.similarity(anchor, out[k].content), policy.minScore, |out| - 1 - k, policy.halfLife)
    {
      var i := SurvivorOrigin(policy, anchor, |messages|, messages, k);
      if out[k].content != "" {
        var s := policy.similarity(anchor, out[k].content);
        PassesIsMonotone(s, s, policy.minScore, |messages| - 1 - i, |out| - 1 - k, policy.halfLife);
      }
    }
  }

  /** And so does the protected tail, at the end. */
  lemma {:induction false} TailSurvives(policy: Policy, anchor: string, total: nat, messages: seq<Message>, k: nat)
    requires |messages| == total && k <= policy.protectRecent && k <= |messages|
    ensures
      var out := Survivors(policy, anchor, total, messages);
      && |out| == |Survivors(policy, anchor, total, messages[..total - k])| + k
      && out[|out| - k..] == messages[total - k..]
  {
    TailGrows(policy, anchor, total, messages, k, total);
    assert messages[..total] == messages;
  }

  lemma {:induction false} TailGrows(policy: Policy, anchor: string, total: nat, messages: seq<Message>, k: nat,
          end: nat)
    requires |messages| == total && k <= policy.protectRecent && k <= total && total - k <= end <= total
    ensures
      Survivors(policy, anchor, total, messages[..end])
        == Survivors(policy, anchor, total, messages[..total - k]) + messages[total - k..end]
  {
    if end > total - k {
      TailGrows(policy, anchor, total, messages, k, end - 1);
      assert messages[..end][..end - 1] == messages[..end - 1];
      assert messages[total - k..end] == messages[total - k..end - 1] + [messages[end - 1]];
    }
  }
}
