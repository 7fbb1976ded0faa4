/**
 Token-budget pruning over whole runs (agentcook-core/src/agentcook_core/compaction.py): turns are
 appended, `compact` is called at arbitrary points, with or without a summarizer, and whatever is
 pruned is accounted for.
 */
module TokenBudgetRuns {
  import opened Seqs
  import opened Messages
  import opened TokenBudget
  import Summary = SummaryCompaction

  /** Every call may meet its own budget, counter, preamble and summarizer. */
  datatype Step = Append(message: Message) | CompactNow(policy: Policy, outcome: Outcome)

  function History(steps: seq<Step>): seq<Message> {
    if steps == [] then [] else
      match steps[|steps| - 1]
      case Append(m) => History(steps[..|steps| - 1]) + [m]
      case CompactNow(_, r) => r.messages
  }

  function Log(steps: seq<Step>): seq<Message> {
    if steps == [] then [] else
      match steps[|steps| - 1]
      case Append(m) => Log(steps[..|steps| - 1]) + [m]
      case CompactNow(_, _) => Log(steps[..|steps| - 1])
  }

  /** Each outcome is what `compact` promises for the history it meets. */
  ghost predicate IsRun(minRecent: nat, steps: seq<Step>) {
    steps != [] ==>
      && IsRun(minRecent, steps[..|steps| - 1])
      && (steps[|steps| - 1].CompactNow? ==>
            var (policy, r) := (steps[|steps| - 1].policy, steps[|steps| - 1].outcome);
            policy.minRecent == minRecent && Promised(policy, History(steps[..|steps| - 1]), r))
  }

  /** Batches of pruned messages: what the summarizer is called with if there is one, and what is
      dropped if there is none. */
  function Batches(steps: seq<Step>): seq<seq<Message>> {
    if steps == [] then [] else
      var before := Batches(steps[..|steps| - 1]);
      match steps[|steps| - 1]
      case Append(_) => before
      case CompactNow(_, r) =>
        before + if r.droppedCount == 0 then [] else [Take(History(steps[..|steps| - 1]), r.droppedCount)]
  }

  /** The run on messages that know where they came from. */
  function Compacted(policy: Policy, trace: Summary.Trace, dropped: nat): Summary.Trace {
    var h := Map(trace.history, Summary.MessageOf());
    if Cost(policy.tokenizer, h) <= policy.budget || dropped > |h| then trace else
      var front := policy.preamble + SummaryPart(policy, h[..dropped]);
      Summary.Trace(Map(front, Summary.AsSynthetic()) + trace.history[dropped..],
                    trace.batches + if dropped == 0 then [] else [trace.history[..dropped]])
  }

  function TraceOf(steps: seq<Step>): Summary.Trace {
    if steps == [] then Summary.Trace([], []) else
      var before := TraceOf(steps[..|steps| - 1]);
      match steps[|steps| - 1]
      case Append(m) => before.(history := before.history + [Summary.Logged(m)])
      case CompactNow(policy, r) => Compacted(policy, before, r.droppedCount)
  }

  lemma {:induction false} CompactedErases(policy: Policy, trace: Summary.Trace, h: seq<Message>, r: Outcome)
    requires h == Map(trace.history, Summary.MessageOf()) && Promised(policy, h, r)
    ensures
      var after := Compacted(policy, trace, r.droppedCount);
      && Map(after.history, Summary.MessageOf()) == r.messages
      && Map(after.batches, Summary.MessagesOf())
           == Map(trace.batches, Summary.MessagesOf())
              + if r.droppedCount == 0 then [] else [Take(h, r.droppedCount)]
  {
    if Cost(policy.tokenizer, h) > policy.budget {
      var d := r.droppedCount;
      var front := policy.preamble + SummaryPart(policy, h[..d]);
      MapCut(trace.history, Summary.MessageOf(), d);
      MapConcat(Map(front, Summary.AsSynthetic()), trace.history[d..], Summary.MessageOf());
      assert Map(Map(front, Summary.AsSynthetic()), Summary.MessageOf()) == front;
      MapConcat(trace.batches, [trace.history[..d]], Summary.MessagesOf());
      assert Map([trace.history[..d]], Summary.MessagesOf()) == [h[..d]];
    }
  }

  lemma {:induction false} CompactedKeepsFaithful(policy: Policy, trace: Summary.Trace, h: seq<Message>,
          log: seq<Message>, r: Outcome)
    requires h == Map(trace.history, Summary.MessageOf()) && Promised(policy, h, r)
    requires Summary.Faithful(policy.minRecent, trace, log)
    ensures Summary.Faithful(policy.minRecent, Compacted(policy, trace, r.droppedCount), log)
  {
    if Cost(policy.tokenizer, h) > policy.budget {
      var d := r.droppedCount;
      var front := Map(policy.preamble + SummaryPart(policy, h[..d]), Summary.AsSynthetic());
      if d == 0 {
        assert trace.history[0..] == trace.history && trace.batches + [] == trace.batches;
        Summary.PrependKeepsFaithful(policy.minRecent, trace, log, front);
      } else {
        Summary.HandOverKeepsFaithful(policy.minRecent, trace, log, d);
        var left := Summary.Trace(trace.history[d..], trace.batches + [trace.history[..d]]);
        Summary.PrependKeepsFaithful(policy.minRecent, left, log, front);
      }
    }
  }

  lemma {:induction false} RunIsFaithful(minRecent: nat, steps: seq<Step>)
    requires IsRun(minRecent, steps)
    ensures Summary.Faithful(minRecent, TraceOf(steps), Log(steps))
    ensures Map(TraceOf(steps).history, Summary.MessageOf()) == History(steps)
    ensures Map(TraceOf(steps).batches, Summary.MessagesOf()) == Batches(steps)
  {
    if steps != [] {
      var front := steps[..|steps| - 1];
      RunIsFaithful(minRecent, front);
      match steps[|steps| - 1] {
        case Append(m) =>
          Summary.AppendKeepsFaithful(minRecent, TraceOf(front), Log(front), m);
          MapConcat(TraceOf(front).history, [Summary.Logged(m)], Summary.MessageOf());
          assert Map([Summary.Logged(m)], Summary.MessageOf()) == [m];
        case CompactNow(policy, r) =>
          CompactedErases(policy, TraceOf(front), History(front), r);
          CompactedKeepsFaithful(policy, TraceOf(front), History(front), Log(front), r);
      }
    }
  }

  /** Over every run the history is preambles and summaries followed by a suffix of the log; the
      logged messages pruned, batch after batch, followed by that suffix are the whole log, in
      order, each exactly once; and the newest `min(minRecent, |log|)` stand verbatim at the end. */
  lemma {:induction false} PrunedIsAccountedFor(minRecent: nat, steps: seq<Step>)
    requires IsRun(minRecent, steps)
    ensures Summary.AccountsFor(minRecent, TraceOf(steps), History(steps), Batches(steps), Log(steps))
  {
    RunIsFaithful(minRecent, steps);
    Summary.FaithfulEnding(minRecent, TraceOf(steps), History(steps), Batches(steps), Log(steps));
  }
}
