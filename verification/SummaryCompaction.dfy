/**
 Summary compaction (agentcook-core/src/agentcook_core/compaction.py): the older turns of a
 history become one system message.  An agent calls it again and again, with turns appended in
 between, so the theorems here are about whole runs.
 */
module SummaryCompaction {
  import opened Wrappers
  import opened Seqs
  import opened Messages

  /** The constructor refuses values below one; no theorem needs that. */
  datatype Policy = Policy(keepRecent: nat, minToSummarize: nat)

  /** `handedOver` is what the summarizer was called with, if it was called at all. */
  datatype Outcome<T> = Outcome(
    messages: seq<T>, droppedCount: nat, summaryInserted: bool, handedOver: Option<seq<T>>)

  /** One `compact` call.  `summarize` stands for the summarizer and the system message built
      around its answer, `preamble` for what the identity provider yields. */
  function Compact<T>(policy: Policy, preamble: seq<T>, summarize: seq<T> -> T, messages: seq<T>): Outcome<T>
  {
    if |messages| <= policy.keepRecent then
      Outcome(messages, 0, false, None)
    else
      var cut := |messages| - policy.keepRecent;
      var recent, older := messages[cut..], messages[..cut];
      if |older| < policy.minToSummarize then
        Outcome(preamble + older + recent, 0, false, None)
      else
        Outcome(preamble + [summarize(older)] + recent, |older|, true, Some(older))
  }

  /** The system message that takes the place of `covers` older turns. */
  function SummaryMessage(text: string, covers: nat): Message {
    SystemMessage("[Compacted history summary]\n" + text,
                  map["compaction" := Text("summary"), "covers_messages" := Number(covers)])
  }

  function Summarize(summarizer: seq<Message> -> string): seq<Message> -> Message {
    older => SummaryMessage(summarizer(older), |older|)
  }

  // ---- the documented no-op, and when the code keeps it ---------------------------------

  /** The strategy protocol asks that a call that drops nothing returns its input unchanged.
      Between `keepRecent` and `keepRecent + minToSummarize` messages the code prepends the
      preamble instead: it keeps the promise there exactly when the preamble is empty. */
  lemma {:induction false} NoopPromise<T>(policy: Policy, preamble: seq<T>, summarize: seq<T> -> T, messages: seq<T>)
    ensures
      var r := Compact(policy, preamble, summarize, messages);
      (r.droppedCount == 0 ==> r.messages == messages)
      <==>
      (|messages| <= policy.keepRecent || preamble == []
       || |messages| >= policy.keepRecent + policy.minToSummarize)
  {
    var r := Compact(policy, preamble, summarize, messages);
    if policy.keepRecent < |messages| < policy.keepRecent + policy.minToSummarize {
      var cut := |messages| - policy.keepRecent;
      assert messages[..cut] + messages[cut..] == messages;
      assert preamble + messages[..cut] + messages[cut..] == preamble + messages;
      assert |r.messages| == |preamble| + |messages|;
      if preamble == [] {
        assert preamble + messages == messages;
      }
    }
  }

  /** Two messages between the limits: nothing is dropped, the preamble is put in front, and put in
      front again by the next call. */
  lemma {:induction false} PreambleIsStacked<T>(p: T, a: T, b: T, summarize: seq<T> -> T)
    ensures Compact(Policy(1, 3), [p], summarize, [a, b]) == Outcome([p, a, b], 0, false, None)
    ensures Compact(Policy(1, 3), [p], summarize, [p, a, b]) == Outcome([p, p, a, b], 0, false, None)
  {
    assert [p] + [a, b][..1] + [a, b][1..] == [p, a, b];
    assert [p] + [p, a, b][..2] + [p, a, b][2..] == [p, p, a, b];
  }

  /** What the result reports is what happened: the dropped messages are exactly those handed to
      the summarizer, one message stands for them, the rest follows verbatim, and whatever is
      shortened starts with the preamble again. */
  lemma {:induction false} ReportIsAccurate<T>(policy: Policy, preamble: seq<T>, summarize: seq<T> -> T,
          messages: seq<T>)
    ensures
      var r := Compact(policy, preamble, summarize, messages);
      var kept := messages[Min(r.droppedCount, |messages|)..];
      && r.droppedCount <= |messages| && |kept| >= Min(policy.keepRecent, |messages|)
      && Last(r.messages, |kept|) == kept
      && (r.summaryInserted <==> r.handedOver.Some?)
      && (r.handedOver.Some? ==>
            && r.handedOver.value == messages[..r.droppedCount]
            && r.messages == preamble + [summarize(messages[..r.droppedCount])] + kept)
      && (r.handedOver.None? ==> r.droppedCount == 0)
      && (|messages| > policy.keepRecent ==> preamble <= r.messages)
  {
    var r := Compact(policy, preamble, summarize, messages);
    if |messages| > policy.keepRecent {
      var cut := |messages| - policy.keepRecent;
      assert messages[..cut] + messages[cut..] == messages;
      JoinAssociates(preamble, messages[..cut], messages[cut..]);
      if r.handedOver.None? {
        assert messages[0..] == messages && Last(preamble + messages, |messages|) == messages;
      }
    }
  }

  // ---- runs ------------------------------------------------------------------------------

  /** A run interleaves appended turns with `compact` calls at arbitrary points.  Every call may
      meet its own preamble and its own summarizer answer. */
  datatype Step =
    | Append(message: Message)
    | CompactNow(preamble: seq<Message>, summarizer: seq<Message> -> string)

  /** The history an agent holds after a run, oldest step first. */
  function History(policy: Policy, steps: seq<Step>): seq<Message> {
    if steps == [] then [] else
      var before := History(policy, steps[..|steps| - 1]);
      match steps[|steps| - 1]
      case Append(m) => before + [m]
      case CompactNow(preamble, summarizer) =>
        Compact(policy, preamble, Summarize(summarizer), before).messages
  }

  /** What the summarizer was called with during the run, call after call. */
  function Batches(policy: Policy, steps: seq<Step>): seq<seq<Message>> {
    if steps == [] then [] else
      var before := Batches(policy, steps[..|steps| - 1]);
      match steps[|steps| - 1]
      case Append(_) => before
      case CompactNow(preamble, summarizer) =>
        var r := Compact(policy, preamble, Summarize(summarizer), History(policy, steps[..|steps| - 1]));
        before + if r.handedOver.Some? then [r.handedOver.value] else []
  }

  /** What stands for the messages handed over: a system message right behind the preamble that
      carries the summarizer's answer and says how many they were. */
  lemma {:induction false} SummaryReachesHistory(policy: Policy, steps: seq<Step>, preamble: seq<Message>,
          summarizer: seq<Message> -> string)
    ensures
      var before, run := History(policy, steps), steps + [CompactNow(preamble, summarizer)];
      var n := |before| - policy.keepRecent;
      if n <= 0 then
        History(policy, run) == before && Batches(policy, run) == Batches(policy, steps)
      else if n < policy.minToSummarize then
        History(policy, run) == preamble + before && Batches(policy, run) == Batches(policy, steps)
      else
        var summary := Message(System, "[Compacted history summary]\n" + summarizer(before[..n]), None, [], None,
                               map["compaction" := Text("summary"), "covers_messages" := Number(n)]);
        && History(policy, run) == preamble + [summary] + before[n..]
        && Batches(policy, run) == Batches(policy, steps) + [before[..n]]
  {
    var run := steps + [CompactNow(preamble, summarizer)];
    assert run[..|run| - 1] == steps;
    var before := History(policy, steps);
    var n := |before| - policy.keepRecent;
    assert Batches(policy, steps) + [] == Batches(policy, steps);
    if 0 < n < policy.minToSummarize {
      assert before == before[..n] + before[n..];
      assert preamble + before[..n] + before[n..] == preamble + before;
    }
  }

  /** Everything that was ever appended. */
  function Log(steps: seq<Step>): seq<Message> {
    if steps == [] then [] else
      var before := Log(steps[..|steps| - 1]);
      match steps[|steps| - 1]
      case Append(m) => before + [m]
      case CompactNow(_, _) => before
  }

  /** A message together with where it came from: the log, or a preamble or summary. */
  datatype Entry = Logged(message: Message) | Synthetic(message: Message)

  function IsLogged(): Entry -> bool {
    (e: Entry) => e.Logged?
  }

  function MessageOf(): Entry -> Message {
    (e: Entry) => e.message
  }

  function AsSynthetic(): Message -> Entry {
    (m: Message) => Synthetic(m)
  }

  function SummarizeEntries(summarizer: seq<Message> -> string): seq<Entry> -> Entry {
    older => Synthetic(Summarize(summarizer)(Map(older, MessageOf())))
  }

  /** The same run on entries, with the batches that reached the summarizer, in order. */
  datatype Trace = Trace(history: seq<Entry>, batches: seq<seq<Entry>>)

  function TraceOf(policy: Policy, steps: seq<Step>): Trace {
    if steps == [] then Trace([], []) else
      var before := TraceOf(policy, steps[..|steps| - 1]);
      match steps[|steps| - 1]
      case Append(m) => before.(history := before.history + [Logged(m)])
      case CompactNow(preamble, summarizer) =>
        var r := Compact(policy, Map(preamble, AsSynthetic()), SummarizeEntries(summarizer), before.history);
        Trace(r.messages, before.batches + if r.handedOver.Some? then [r.handedOver.value] else [])
  }

  function MessagesOf(): seq<Entry> -> seq<Message> {
    (h: seq<Entry>) => Map(h, MessageOf())
  }

  /** Forgetting the provenance of a trace gives the history of the real run and the calls its
      summarizer received: `compact` moves messages around without looking at them. */
  lemma {:induction false} TraceErasesToRun(policy: Policy, steps: seq<Step>)
    ensures Map(TraceOf(policy, steps).history, MessageOf()) == History(policy, steps)
    ensures Map(TraceOf(policy, steps).batches, MessagesOf()) == Batches(policy, steps)
  {
    if steps != [] {
      TraceErasesToRun(policy, steps[..|steps| - 1]);
      var before := TraceOf(policy, steps[..|steps| - 1]);
      match steps[|steps| - 1] {
        case Append(m) =>
        case CompactNow(preamble, summarizer) =>
          CompactErases(policy, preamble, summarizer, before.history);
      }
    }
  }

  lemma {:induction false} CompactErases(policy: Policy, preamble: seq<Message>, summarizer: seq<Message> -> string,
          h: seq<Entry>)
    ensures
      var r := Compact(policy, Map(preamble, AsSynthetic()), SummarizeEntries(summarizer), h);
      var plain := Compact(policy, preamble, Summarize(summarizer), Map(h, MessageOf()));
      && Map(r.messages, MessageOf()) == plain.messages
      && (r.handedOver.Some? <==> plain.handedOver.Some?)
      && (r.handedOver.Some? ==> Map(r.handedOver.value, MessageOf()) == plain.handedOver.value)
  {
    if |h| > policy.keepRecent {
      var cut := |h| - policy.keepRecent;
      MapCut(h, MessageOf(), cut);
      assert Map(Map(preamble, AsSynthetic()), MessageOf()) == preamble;
      if cut < policy.minToSummarize {
        ErasesJoin(Map(preamble, AsSynthetic()), h[..cut], h[cut..]);
      } else {
        var summary := SummarizeEntries(summarizer)(h[..cut]);
        ErasesJoin(Map(preamble, AsSynthetic()), [summary], h[cut..]);
        assert Map([summary], MessageOf()) == [Summarize(summarizer)(Map(h, MessageOf())[..cut])];
      }
    }
  }

  lemma {:induction false} ErasesJoin(a: seq<Entry>, b: seq<Entry>, c: seq<Entry>)
    ensures Map(a + b + c, MessageOf()) == Map(a, MessageOf()) + Map(b, MessageOf()) + Map(c, MessageOf())
  {
    MapConcat(a + b, c, MessageOf());
    MapConcat(a, b, MessageOf());
  }

  /** The messages of `h` that came from the log, in order. */
  function LoggedPart(h: seq<Entry>): seq<Message> {
    Map(Filter(h, IsLogged()), MessageOf())
  }

  /** Synthetic messages first, then logged ones. */
  ghost predicate SyntheticThenLogged(h: seq<Entry>) {
    forall i, j :: 0 <= i < j < |h| && h[i].Logged? ==> h[j].Logged?
  }

  lemma {:induction false} LoggedPartConcat(a: seq<Entry>, b: seq<Entry>)
    ensures LoggedPart(a + b) == LoggedPart(a) + LoggedPart(b)
  {
    FilterConcat(a, b, IsLogged());
  }

  lemma {:induction false} LoggedIsTail(h: seq<Entry>)
    requires SyntheticThenLogged(h)
    ensures
      var cut := |h| - |LoggedPart(h)|;
      0 <= cut && (forall i :: 0 <= i < cut ==> h[i].Synthetic?)
      && (forall i :: cut <= i < |h| ==> h[i].Logged?)
      && Map(h[cut..], MessageOf()) == LoggedPart(h)
  {
    if h == [] {
    } else if h[|h| - 1].Synthetic? {
      FilterNone(h, IsLogged());
    } else {
      var front, last := h[..|h| - 1], h[|h| - 1];
      assert h == front + [last];
      LoggedIsTail(front);
      var cut := |front| - |LoggedPart(front)|;
      assert LoggedPart(h) == LoggedPart(front) + [last.message] by {
        LoggedPartConcat(front, [last]);
        assert LoggedPart([last]) == [last.message];
      }
      assert h[cut..] == front[cut..] + [last];
      MapConcat(front[cut..], [last], MessageOf());
      assert forall i :: 0 <= i < |front| ==> h[i] == front[i];
    }
  }

  /** Every entry of the tail of logged entries is logged, so cutting it and reading it commute. */
  lemma {:induction false} LoggedSuffix(h: seq<Entry>, n: nat, k: nat)
    requires k <= n <= |h| && forall i :: |h| - n <= i < |h| ==> h[i].Logged?
    ensures LoggedPart(h[|h| - k..]) == Map(h[|h| - n..], MessageOf())[n - k..]
  {
    FilterAll(h[|h| - k..], IsLogged());
    MapCut(h[|h| - n..], MessageOf(), n - k);
    assert h[|h| - k..] == h[|h| - n..][n - k..];
  }

  lemma {:induction false} SyntheticFront(h: seq<Entry>, i: nat)
    requires i <= |h| && forall j :: 0 <= j < i ==> h[j].Synthetic?
    ensures LoggedPart(h[i..]) == LoggedPart(h)
  {
    FilterSplit(h, IsLogged(), i);
    FilterNone(h[..i], IsLogged());
    assert [] + Filter(h[i..], IsLogged()) == Filter(h[i..], IsLogged());
  }

  lemma {:induction false} LoggedInTail(h: seq<Entry>, k: nat)
    requires SyntheticThenLogged(h)
    ensures LoggedPart(Last(h, k)) == Last(LoggedPart(h), k)
  {
    LoggedIsTail(h);
    var n := |LoggedPart(h)|;
    if k <= n {
      LoggedSuffix(h, n, k);
    } else {
      SyntheticFront(h, |h| - |Last(h, k)|);
    }
  }

  /** What every step of a run keeps. */
  ghost predicate Faithful(keepRecent: nat, trace: Trace, log: seq<Message>) {
    && SyntheticThenLogged(trace.history)
    && LoggedPart(Concat(trace.batches)) + LoggedPart(trace.history) == log
    && |LoggedPart(trace.history)| >= Min(keepRecent, |log|)
  }

  lemma {:induction false} AppendKeepsFaithful(keepRecent: nat, trace: Trace, log: seq<Message>, m: Message)
    requires Faithful(keepRecent, trace, log)
    ensures Faithful(keepRecent, trace.(history := trace.history + [Logged(m)]), log + [m])
  {
    LoggedPartConcat(trace.history, [Logged(m)]);
    assert LoggedPart([Logged(m)]) == [m];
  }

  /** Putting synthetic messages in front of a history costs nothing. */
  lemma {:induction false} PrependKeepsFaithful(keepRecent: nat, trace: Trace, log: seq<Message>, front: seq<Entry>)
    requires Faithful(keepRecent, trace, log)
    requires forall i :: 0 <= i < |front| ==> front[i].Synthetic?
    ensures Faithful(keepRecent, trace.(history := front + trace.history), log)
  {
    FilterNone(front, IsLogged());
    LoggedPartConcat(front, trace.history);
    assert LoggedPart(front) == [];
  }

  /** Handing over the oldest entries, all but `keepRecent` or more, loses nothing. */
  lemma {:induction false} HandOverKeepsFaithful(keepRecent: nat, trace: Trace, log: seq<Message>, cut: nat)
    requires Faithful(keepRecent, trace, log)
    requires |trace.history| >= cut + keepRecent
    ensures Faithful(keepRecent, Trace(trace.history[cut..], trace.batches + [trace.history[..cut]]), log)
  {
    var older, recent := trace.history[..cut], trace.history[cut..];
    var a, b, c := LoggedPart(Concat(trace.batches)), LoggedPart(older), LoggedPart(recent);
    assert LoggedPart(trace.history) == b + c by {
      assert trace.history == older + recent;
      LoggedPartConcat(older, recent);
    }
    assert LoggedPart(Concat(trace.batches + [older])) == a + b by {
      ConcatSnoc(trace.batches, older);
      LoggedPartConcat(Concat(trace.batches), older);
    }
    JoinAssociates(a, b, c);
    assert |c| >= Min(keepRecent, |log|) by {
      assert recent == Last(trace.history, |recent|);
      LoggedInTail(trace.history, |recent|);
    }
  }

  lemma {:induction false} CompactKeepsFaithful(policy: Policy, trace: Trace, log: seq<Message>, preamble: seq<Entry>,
          summarize: seq<Entry> -> Entry)
    requires Faithful(policy.keepRecent, trace, log)
    requires forall i :: 0 <= i < |preamble| ==> preamble[i].Synthetic?
    requires forall older :: summarize(older).Synthetic?
    ensures
      var r := Compact(policy, preamble, summarize, trace.history);
      var batches := trace.batches + if r.handedOver.Some? then [r.handedOver.value] else [];
      Faithful(policy.keepRecent, Trace(r.messages, batches), log)
  {
    var h := trace.history;
    var r := Compact(policy, preamble, summarize, h);
    if r.handedOver.Some? {
      var cut := |h| - policy.keepRecent;
      HandOverKeepsFaithful(policy.keepRecent, trace, log, cut);
      var left := Trace(h[cut..], trace.batches + [h[..cut]]);
      PrependKeepsFaithful(policy.keepRecent, left, log, preamble + [summarize(h[..cut])]);
    } else {
      assert trace.batches + [] == trace.batches;
      if |h| > policy.keepRecent {
        var cut := |h| - policy.keepRecent;
        assert h[..cut] + h[cut..] == h;
        JoinAssociates(preamble, h[..cut], h[cut..]);
        PrependKeepsFaithful(policy.keepRecent, trace, log, preamble);
      }
    }
  }

  lemma {:induction false} RunIsFaithful(policy: Policy, steps: seq<Step>)
    ensures Faithful(policy.keepRecent, TraceOf(policy, steps), Log(steps))
  {
    if steps != [] {
      var before := TraceOf(policy, steps[..|steps| - 1]);
      RunIsFaithful(policy, steps[..|steps| - 1]);
      match steps[|steps| - 1] {
        case Append(m) =>
          AppendKeepsFaithful(policy.keepRecent, before, Log(steps[..|steps| - 1]), m);
        case CompactNow(preamble, summarizer) =>
          CompactKeepsFaithful(policy, before, Log(steps[..|steps| - 1]), Map(preamble, AsSynthetic()),
                               SummarizeEntries(summarizer));
      }
    }
  }

  /** `history` is synthetic messages followed by a suffix of `log`; the logged messages handed to
      the summarizer, batch after batch, followed by that suffix are the whole log, in order, each
      exactly once; and the newest `min(keepRecent, |log|)` logged messages stand verbatim at the
      end of the history.  `trace` says which of the messages in `history` and in `batches`, the
      summarizer's real inputs, came from the log. */
  ghost predicate AccountsFor(keepRecent: nat, trace: Trace, history: seq<Message>, batches: seq<seq<Message>>,
          log: seq<Message>)
  {
    var cut := |history| - |LoggedPart(trace.history)|;
    && Map(trace.history, MessageOf()) == history
    && Map(trace.batches, MessagesOf()) == batches
    && 0 <= cut
    && Origins(trace.history, cut)
    && LoggedPart(Concat(trace.batches)) + history[cut..] == log
    && EndsVerbatim(history, log, keepRecent)
  }

  /** The first `cut` entries are synthetic, the others logged. */
  ghost predicate Origins(h: seq<Entry>, cut: nat) {
    forall i :: 0 <= i < |h| ==> (h[i].Synthetic? <==> i < cut)
  }

  ghost predicate EndsVerbatim(history: seq<Message>, log: seq<Message>, keepRecent: nat) {
    |history| >= Min(keepRecent, |log|) && Last(history, Min(keepRecent, |log|)) == Last(log, keepRecent)
  }

  /** Nothing is lost, over any run. */
  lemma {:induction false} NothingIsLost(policy: Policy, steps: seq<Step>)
    ensures AccountsFor(policy.keepRecent, TraceOf(policy, steps), History(policy, steps), Batches(policy, steps),
             Log(steps))
  {
    RunIsFaithful(policy, steps);
    TraceErasesToRun(policy, steps);
    FaithfulEnding(policy.keepRecent, TraceOf(policy, steps), History(policy, steps), Batches(policy, steps),
            Log(steps));
  }

  lemma {:induction false} FaithfulEnding(keepRecent: nat, trace: Trace, history: seq<Message>,
          batches: seq<seq<Message>>, log: seq<Message>)
    requires Faithful(keepRecent, trace, log)
    requires Map(trace.history, MessageOf()) == history && Map(trace.batches, MessagesOf()) == batches
    ensures AccountsFor(keepRecent, trace, history, batches, log)
  {
    LoggedIsTail(trace.history);
    var cut := |history| - |LoggedPart(trace.history)|;
    SuffixIsLogged(trace.history, history, cut);
    LogEndsHistory(LoggedPart(Concat(trace.batches)), history, cut, log, keepRecent);
  }

  lemma {:induction false} SuffixIsLogged(h: seq<Entry>, history: seq<Message>, cut: nat)
    requires history == Map(h, MessageOf()) && cut <= |h|
    ensures history[cut..] == Map(h[cut..], MessageOf())
  {
  }

  /** A log that ends with the suffix of a history ends as the history does, as far as the suffix
      reaches. */
  lemma {:induction false} LogEndsHistory(handedOver: seq<Message>, history: seq<Message>, cut: nat, log: seq<Message>,
          keepRecent: nat)
    requires cut <= |history| && log == handedOver + history[cut..]
    requires |history| - cut >= Min(keepRecent, |log|)
    ensures EndsVerbatim(history, log, keepRecent)
  {
    var m := Min(keepRecent, |log|);
    LastOfAll(log, keepRecent, m);
    LastOfSuffix(history, cut, m);
    LastOfSuffix(log, |handedOver|, m);
  }

  lemma {:induction false} LastOfAll<T>(s: seq<T>, k: nat, m: nat)
    requires m == Min(k, |s|)
    ensures Last(s, k) == Last(s, m)
  {
  }

  lemma {:induction false} LastOfSuffix<T>(s: seq<T>, cut: nat, m: nat)
    requires cut + m <= |s|
    ensures Last(s, m) == Last(s[cut..], m)
  {
  }
}
