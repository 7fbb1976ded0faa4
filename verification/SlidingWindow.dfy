/**
 Sliding-window compaction (agentcook-core/src/agentcook_core/compaction.py): keep the newest
 turns, drop the rest, put the preamble in front again.
 */
module SlidingWindow {
  import opened Seqs

  datatype Outcome<T> = Outcome(messages: seq<T>, droppedCount: nat)

  /** One `compact` call; `window` is at least one by construction. */
  function Compact<T>(window: nat, preamble: seq<T>, messages: seq<T>): Outcome<T>
  {
    if |messages| <= window then
      Outcome(messages, 0)
    else
      var kept := messages[|messages| - window..];
      Outcome(preamble + kept, |messages| - |kept|)
  }

  /** The reported count is the number of oldest messages left out; the rest follows the preamble. */
  lemma {:induction false} ReportIsAccurate<T>(window: nat, preamble: seq<T>, messages: seq<T>)
    ensures
      var r := Compact(window, preamble, messages);
      && r.droppedCount + Min(window, |messages|) == |messages|
      && r.messages == (if r.droppedCount == 0 then messages else preamble + messages[r.droppedCount..])
  {
  }

  datatype Step<T> = Append(message: T) | CompactNow

  /** The history after a run of appends and `compact` calls in any order. */
  function History<T>(window: nat, preamble: seq<T>, steps: seq<Step<T>>): seq<T> {
    if steps == [] then [] else
      var before := History(window, preamble, steps[..|steps| - 1]);
      match steps[|steps| - 1]
      case Append(m) => before + [m]
      case CompactNow => Compact(window, preamble, before).messages
  }

  function Log<T>(steps: seq<Step<T>>): seq<T> {
    if steps == [] then [] else
      var before := Log(steps[..|steps| - 1]);
      match steps[|steps| - 1]
      case Append(m) => before + [m]
      case CompactNow => before
  }

  /** A history that can stand in for the full log in every later `compact` call. */
  ghost predicate StandsFor<T>(window: nat, preamble: seq<T>, history: seq<T>, log: seq<T>) {
    if |log| <= window then history == log
    else
      && |history| >= window
      && Last(history, window) == Last(log, window)
      && (|history| == window ==> preamble == [])
  }

  lemma {:induction false} AppendStandsFor<T>(window: nat, preamble: seq<T>, history: seq<T>, log: seq<T>, m: T)
    requires window >= 1 && StandsFor(window, preamble, history, log)
    ensures StandsFor(window, preamble, history + [m], log + [m])
  {
    if |log| >= window {
      LastOfSnoc(window, history, m);
      LastOfSnoc(window, log, m);
    }
  }

  lemma {:induction false} LastOfSnoc<T>(window: nat, s: seq<T>, m: T)
    requires 1 <= window <= |s|
    ensures Last(s + [m], window) == Last(s, window)[1..] + [m]
  {
  }

  lemma {:induction false} CompactStandsFor<T>(window: nat, preamble: seq<T>, history: seq<T>, log: seq<T>)
    requires window >= 1 && StandsFor(window, preamble, history, log)
    ensures StandsFor(window, preamble, Compact(window, preamble, history).messages, log)
  {
    if |history| > window {
      var kept := history[|history| - window..];
      assert kept == Last(history, window);
      assert Last(preamble + kept, window) == kept;
    }
  }

  lemma {:induction false} RunStandsForLog<T>(window: nat, preamble: seq<T>, steps: seq<Step<T>>)
    requires window >= 1
    ensures StandsFor(window, preamble, History(window, preamble, steps), Log(steps))
  {
    if steps != [] {
      var front := steps[..|steps| - 1];
      RunStandsForLog(window, preamble, front);
      match steps[|steps| - 1] {
        case Append(m) =>
          AppendStandsFor(window, preamble, History(window, preamble, front), Log(front), m);
        case CompactNow =>
          CompactStandsFor(window, preamble, History(window, preamble, front), Log(front));
      }
    }
  }

  lemma {:induction false} StandInCompactsAlike<T>(window: nat, preamble: seq<T>, history: seq<T>, log: seq<T>)
    requires window >= 1 && StandsFor(window, preamble, history, log)
    ensures Compact(window, preamble, history).messages == Compact(window, preamble, log).messages
  {
    if |log| > window {
      var kept := Last(log, window);
      assert Last(history, window) == kept;
      assert Compact(window, preamble, log).messages == preamble + kept;
      if |history| == window {
        assert history == kept && preamble + kept == kept;
      }
    }
  }

  /** Schedule independence: compacting at arbitrary points while messages arrive, then once at
      the end, gives what a single compaction of the full log gives.  Two runs over the same log
      therefore end alike. */
  lemma {:induction false} ScheduleDoesNotMatter<T>(window: nat, preamble: seq<T>, steps: seq<Step<T>>)
    requires window >= 1
    ensures Compact(window, preamble, History(window, preamble, steps)).messages
         == Compact(window, preamble, Log(steps)).messages
  {
    RunStandsForLog(window, preamble, steps);
    StandInCompactsAlike(window, preamble, History(window, preamble, steps), Log(steps));
  }

  /** Compacting twice is compacting once, also when the preamble makes the first result longer
      than the window. */
  lemma {:induction false} CompactIsIdempotent<T>(window: nat, preamble: seq<T>, messages: seq<T>)
    requires window >= 1
    ensures
      var once := Compact(window, preamble, messages).messages;
      Compact(window, preamble, once).messages == once
  {
    if |messages| > window {
      var kept := messages[|messages| - window..];
      var once := preamble + kept;
      assert once[|once| - window..] == kept;
    }
  }
}
