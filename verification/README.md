# Agent runtime components, verified

This project models the stateful components of the agentcook stack and proves what they do over
whole runs. Each component has a module named after it; a method that changes state is proved
against a function on values, and the theorems are about that function and about runs of it.

- `SummaryCompaction`, `SlidingWindow`, `TokenBudget`, `TokenBudgetRuns`: the three ways of
  shrinking a message history. An agent calls them again and again, so the theorems quantify over
  all interleavings of appended turns and `compact` calls.
- `AgentRuntime`, `InMemoryRuntime`, `PgRuntime`: one contract, two implementations. Both are
  proved to refine one plain log per agent; `RuntimeSimulation` puts them side by side,
  `RuntimeDifferences` says exactly where they part, and `EventPaging` is about a client of either
  that walks the pages while others append. `Timestamps` is about the text form of timestamps, which
  one runtime compares as text and the other as instants.
- `Sse`: the incremental parser of the chat hook and of the admin composable, a subset of the
  event-stream format in section 9.2.5 of the WHATWG HTML Living Standard.
- `RateLimit` and `RateLimitRaces`: the fixed-window limiter, one request at a time and as
  interleaved gets and puts that may read stale values.
- `ToolCallStream`: reassembly of streamed tool calls from interleaved fragments.
- `TtlStore`: the store with lazy expiry, against a plain map.
- `DuplicatePruning`, `RelevancePruning`, `CompositePruning`: message pruning.
- `ModelRouter`, `HookPipeline`, `FallbackProvider`: model selection, hooks around a call, and
  provider chains.
- `Seqs`, `StableSort`, `OrderedDict`, `Decimal`, `EventIds`, `Messages`, `Wrappers`: shared
  vocabulary.

Calls into code outside a component are parameters: summarizers, token counters, embedding
similarity, availability probes, JSON decoding, the reading and printing of timestamps, clocks and
the identifiers others generate. Automatic induction is switched off throughout; every proof follows its data
explicitly.

## Where code and documentation part

The model follows the code. These differences are theorems, each with its exact condition and a
concrete input:

- Summary compaction promises that a call that drops nothing returns its input; with a preamble
  and between keep_recent and keep_recent + min_to_summarize messages it prepends the preamble
  every time (`SummaryCompaction.NoopPromise`, with an input in
  `SummaryCompaction.PreambleIsStacked`).
- Token-budget pruning documents its budget as the maximum for the output. It is kept exactly when
  preamble, summary and kept tail fit (`TokenBudget.FitsIffPartsFit`); a summary comes on top of a
  tail that has already filled the budget (`TokenBudget.SummaryCanExceedBudget`).
- Duplicate pruning says it keeps the latest of adjacent identical user messages; it keeps the
  first, and a tool call in between does not make them less adjacent
  (`DuplicatePruning.KeepsTheFirst`, `DuplicatePruning.DropsAcrossToolCalls`,
  `DuplicatePruning.DroppedIffRepeats`, with an input in `DuplicatePruning.SecondGreetingIsDropped`).
  Its signatures of call lists can collide, and then a turn is dropped that repeats nothing
  (`DuplicatePruning.CollisionDropsATurn`). A turn without text is dropped exactly for its signature
  (`DuplicatePruning.DroppedIffRepeats`), and exactly for repeating its calls whenever names are free
  of the separator and printed arguments end where their brackets close
  (`DuplicatePruning.FaithfulDropsRepeatCalls`, `DuplicatePruning.NamesSuffice`).
- Relevance pruning is idempotent when its anchor is given or kept, or nothing is more similar to a
  text than that text, all of which is known before the call (`RelevancePruning.PruneIsIdempotent`).
  Otherwise it may drop its own anchor and then drop more in a second pass
  (`RelevancePruning.SecondPassCanDropMore`; exactly when, `RelevancePruning.IdempotentIff`). A chain
  is idempotent on a history exactly when every stage leaves its output alone
  (`CompositePruning.IdempotentIff`). The order the module recommends, duplicates first, is not
  always (`CompositePruning.ChainIsNotIdempotent`), but on every history without equal user texts or
  call signatures before the protected tail (`CompositePruning.DuplicatesFirstIsIdempotent`); the
  opposite one is wherever relevance pruning is (`CompositePruning.RelevanceFirstIsIdempotent`).
- The two runtimes answer to one contract and differ in four ways. Postgres refuses a timestamp it
  cannot read, the in-memory runtime stores it (`RuntimeDifferences.StaysInStepIff`, with a run in
  `RuntimeDifferences.UnreadableTimestampSplits`). One compares the text of timestamps, the other the
  instants, and one searches a cursor among the filtered events, the other in the table: they list
  the same events exactly when `since` can be read and the two comparisons agree behind the cursor,
  or behind a cursor that fails the filters Postgres finds nothing either
  (`RuntimeDifferences.ListingsAgreeIff`, with a run in `RuntimeDifferences.SpellingMatters`). Postgres
  prints timestamps anew, so the listings are equal to the letter exactly when in addition every
  matching event was sent in the printed spelling (`RuntimeDifferences.ListingsEqualIff`, with a run in
  `RuntimeDifferences.SpellingShows`). For soul histories longer than the limit one returns the newest
  and the other the oldest versions (`RuntimeDifferences.HistoriesAgreeIff`, with a run in
  `RuntimeDifferences.HistoriesDiffer`). In runs whose timestamps all have the form the server writes,
  no listing differs (`RuntimeSimulation.CanonicalRunsLookAlike`).
- The limiter counts too little under races, never too much. A check is wrongly allowed exactly when
  its get saw fewer than the limit although at least as many had written by its put
  (`RateLimitRaces.WronglyAllowedIff`, with an input in `RateLimitRaces.RaceAdmitsBoth`).
- The pipeline's docstring has post-hooks run after every cancellation; under fail_fast that takes
  that the cancelling hook does not raise and no post-hook but the outermost does
  (`HookPipeline.AllPostsRunAfterCancelIff`, `HookPipeline.CancelAndRaiseSkipsPosts`). The registry's
  docstring lists hooks in registration order; registrations are dispatched in that order exactly
  when no global one came after one of the event's own (`HookPipeline.DispatchedInOrderIff`,
  `HookPipeline.LateGlobalComesFirst`), and the hooks returned are in that order exactly then unless
  a hook is registered twice (`HookPipeline.HooksInOrderIff`,
  `HookPipeline.RepeatedHookHidesTheOrder`).

## Model

| member | source | states |
|---|---|---|
| `SummaryCompaction.NothingIsLost` | agentcook-core/src/agentcook_core/compaction.py:238-273 | over every run of appends and `compact` calls the history is synthetic messages followed by a suffix of the log; the logged messages among the real summarizer inputs, batch after batch, plus that suffix are the whole log in order, each once; the newest min(keep_recent, log length) stand verbatim at the end |
| `SummaryCompaction.RunIsFaithful` | agentcook-core/src/agentcook_core/compaction.py:238-273 | the invariant behind it holds after every run |
| `SummaryCompaction.CompactKeepsFaithful` | agentcook-core/src/agentcook_core/compaction.py:240-273 | one `compact` call keeps the invariant, whichever of its three branches it takes |
| `SummaryCompaction.HandOverKeepsFaithful` | agentcook-core/src/agentcook_core/compaction.py:244-261 | handing all but the newest keep_recent entries to the summarizer neither loses, repeats nor reorders a logged message |
| `SummaryCompaction.TraceErasesToRun` | agentcook-core/src/agentcook_core/compaction.py:244-273 | forgetting where entries came from turns the annotated run into the real one: same histories, same summarizer inputs |
| `SummaryCompaction.ReportIsAccurate` | agentcook-core/src/agentcook_core/compaction.py:240-273 | dropped_count and summary_inserted say exactly what was handed to the summarizer; the kept messages end the output verbatim; a shortened history starts with the preamble |
| `SummaryCompaction.SummaryReachesHistory` | agentcook-core/src/agentcook_core/compaction.py:244-273 | what one more call in a run does to the history, in its three cases: nothing; the preamble in front; or the preamble, then a system message reading "[Compacted history summary]" and, on the next line, what the summarizer said of the older messages, with their number in its metadata, then the newest keep_recent verbatim |
| `SummaryCompaction.NoopPromise` | agentcook-core/src/agentcook_core/compaction.py:149-151 | the promise that a call dropping nothing returns its input holds if and only if the history is at most keep_recent long, long enough to be summarized, or the preamble is empty |
| `SummaryCompaction.PreambleIsStacked` | agentcook-core/src/agentcook_core/compaction.py:247-253 | an input on which it fails: two messages, and the preamble in front of them once more with every call |
| `SlidingWindow.ScheduleDoesNotMatter` | agentcook-core/src/agentcook_core/compaction.py:332-350 | compacting at arbitrary points of a run and once at the end gives what one compaction of the full log gives |
| `SlidingWindow.RunStandsForLog` | agentcook-core/src/agentcook_core/compaction.py:332-350 | after every run the history agrees with the log on everything a later call can see |
| `SlidingWindow.CompactIsIdempotent` | agentcook-core/src/agentcook_core/compaction.py:332-350 | compacting twice is compacting once, also with a non-empty preamble |
| `SlidingWindow.ReportIsAccurate` | agentcook-core/src/agentcook_core/compaction.py:337-350 | dropped_count is the number of oldest messages missing; the others follow the preamble in order |
| `TokenBudget.HeuristicCount` | agentcook-core/src/agentcook_core/compaction.py:106-109 | zero exactly for the empty text, one below four characters, otherwise a quarter of the length, rounded down |
| `TokenBudget.Count` | agentcook-core/src/agentcook_core/compaction.py:516-526 | the two nested loops compute the cost of all contents, tool names and printed arguments |
| `TokenBudget.CostIs` | agentcook-core/src/agentcook_core/compaction.py:516-526 | a conversation costs the sum over its contents, plus that over the names of its tool calls, plus that over their printed arguments, each text counted on its own |
| `TokenBudget.CostConcat` | agentcook-core/src/agentcook_core/compaction.py:516-526 | the cost of a joined list is the sum of the costs |
| `TokenBudget.KeepRecent` | agentcook-core/src/agentcook_core/compaction.py:427-437 | the greedy pass returns a suffix that is budget-maximal |
| `TokenBudget.KeepWithin` | agentcook-core/src/agentcook_core/compaction.py:427-437 | its loop, against the greedy length as a function of the tail costs |
| `TokenBudget.StoppedIsMaximal` | agentcook-core/src/agentcook_core/compaction.py:429-437 | each of the three ways the loop can stop leaves a budget-maximal tail |
| `TokenBudget.BudgetMaximalIsUnique` | agentcook-core/src/agentcook_core/compaction.py:429-437 | there is only one budget-maximal tail length |
| `TokenBudget.LongerTailsAddOnlyFreeMessages` | agentcook-core/src/agentcook_core/compaction.py:431-435 | a longer tail that still fits the budget adds nothing but messages of cost zero |
| `TokenBudget.Compact` | agentcook-core/src/agentcook_core/compaction.py:406-469 | input returned unchanged within budget; otherwise preamble, optional summary of exactly the pruned prefix, budget-maximal suffix, with dropped_count and summary_inserted accordingly |
| `TokenBudget.SummaryReachesOutput` | agentcook-core/src/agentcook_core/compaction.py:439-469 | the output message by message: preamble, then if something was pruned and there is a summarizer the system message with the number pruned and what the summarizer said of exactly those messages, then the rest verbatim |
| `TokenBudget.OutcomeIsDetermined` | agentcook-core/src/agentcook_core/compaction.py:406-469 | that promise leaves exactly one possible outcome |
| `TokenBudget.OutputCost` | agentcook-core/src/agentcook_core/compaction.py:439-455 | the output costs preamble plus summary plus kept tail |
| `TokenBudget.FitsIffForcedPartFits` | agentcook-core/src/agentcook_core/compaction.py:359-364 | without a summarizer an over-long history comes back within budget if and only if preamble plus the protected turns fit |
| `TokenBudget.FitsIffPartsFit` | agentcook-core/src/agentcook_core/compaction.py:359-371 | for every policy, summarizer or not: an over-long history comes back within budget if and only if preamble, summary of what lies before the kept tail, and that tail cost no more, all known from the input; if the forced part fits, only the summary can go beyond the budget |
| `TokenBudget.SecondPassIsNoop` | agentcook-core/src/agentcook_core/compaction.py:415-420 | in that case a second pass changes nothing |
| `TokenBudget.SummaryCanExceedBudget` | agentcook-core/src/agentcook_core/compaction.py:370-370 | an input on which that condition fails although the forced part fits: the output costs 120 of 100 tokens |
| `TokenBudgetRuns.PrunedIsAccountedFor` | agentcook-core/src/agentcook_core/compaction.py:406-469 | over every run of appends and calls, each with its own budget, counter, preamble and summarizer: what was pruned, batch after batch, plus the suffix left are the whole log in order, each message once, and the newest min(min_recent, log length) are verbatim |
| `TokenBudgetRuns.RunIsFaithful` | agentcook-core/src/agentcook_core/compaction.py:406-469 | the invariant behind it, and that the annotated run is the real one |
| `InMemoryRuntime.Runtime.constructor` | agentcook/src/agentcook_app/services.py:130-134 | a new runtime has no agents and nothing stored |
| `InMemoryRuntime.Runtime.SeedAgent` | agentcook/src/agentcook_app/services.py:138-143 | registers a new agent, refuses a taken id, changes nothing else |
| `InMemoryRuntime.Runtime.AppendSoul` | agentcook/src/agentcook_app/services.py:162-171 | one step of the runtime: new version numbered by the history length |
| `InMemoryRuntime.Runtime.GetSoulLatest` | agentcook/src/agentcook_app/services.py:155-160 | one step: the last version, or an error without any; nothing changes |
| `InMemoryRuntime.Runtime.AppendMemoryEvent` | agentcook/src/agentcook_app/services.py:180-188 | one step: counter up by one, the event stored under that number |
| `InMemoryRuntime.Runtime.ListMemoryEvents` | agentcook/src/agentcook_app/services.py:190-214 | the listing of the current state; nothing changes |
| `InMemoryRuntime.Runtime.Narrow` | agentcook/src/agentcook_app/services.py:201-204 | narrowing by each given filter in turn selects what passes all of them |
| `InMemoryRuntime.Runtime.SkipPast` | agentcook/src/agentcook_app/services.py:205-211 | what follows the first item with the cursor id, nothing if there is none |
| `InMemoryRuntime.Runtime.CutPage` | agentcook/src/agentcook_app/services.py:212-213 | the first `limit` items and a cursor exactly when more are left |
| `InMemoryRuntime.Runtime.ListSoulHistory` | agentcook/src/agentcook_app/services.py:173-178 | the newest `limit` versions, and all of them for a limit of zero |
| `InMemoryRuntime.Runtime.FlushMemory` | agentcook/src/agentcook_app/services.py:234-248 | one step: events and counter of the agent gone, its souls only on request, the number of deleted events |
| `InMemoryRuntime.CursorFindsItsPlace` | agentcook/src/agentcook_app/services.py:205-211 | the cursor of an event that passes the filters leaves exactly the matching events behind it |
| `InMemoryRuntime.CursorIsLost` | agentcook/src/agentcook_app/services.py:205-211 | the cursor of an event that does not pass them gives an empty page |
| `InMemoryRuntime.AppendEventRefinesLog` | agentcook/src/agentcook_app/services.py:180-188 | after an append the i-th event of every agent still carries id i and every counter equals its list length |
| `InMemoryRuntime.FlushRefinesLog` | agentcook/src/agentcook_app/services.py:234-248 | the same after a flush, which restarts the numbering |
| `InMemoryRuntime.SoulsRefineLog` | agentcook/src/agentcook_app/services.py:155-171 | soul versions stay 1 to n without gaps |
| `InMemoryRuntime.ListingRefinesLog` | agentcook/src/agentcook_app/services.py:190-214 | a listing is the page of the plain log behind the cursor position |
| `InMemoryRuntime.ListingFailsIff` | agentcook/src/agentcook_app/services.py:196-214 | exactly when a listing fails: unknown agent, or limit zero with something to list |
| `InMemoryRuntime.StepRefinesLog` | agentcook/src/agentcook_app/services.py:147-248 | every request keeps the representation of the plain log and answers as the log does |
| `PgRuntime.Runtime.AppendSoul` | agentcook/src/agentcook_app/runtime_pg.py:119-137 | one step at table level: MAX(version) plus one |
| `PgRuntime.Runtime.GetSoulLatest` | agentcook/src/agentcook_app/runtime_pg.py:107-117 | one step: the row of greatest version |
| `PgRuntime.Runtime.AppendMemoryEvent` | agentcook/src/agentcook_app/runtime_pg.py:152-165 | one step: a timestamp that cannot be read is refused and nothing changes; otherwise insert the instant, then report the greatest id of the agent with the event as it was sent |
| `PgRuntime.Runtime.ListMemoryEvents` | agentcook/src/agentcook_app/runtime_pg.py:167-220 | the filter / order / limit query with one extra row, timestamps printed anew; a `since` that cannot be read is an error, and then a malformed cursor counts as agent not found |
| `PgRuntime.Runtime.ListSoulHistory` | agentcook/src/agentcook_app/runtime_pg.py:139-150 | the oldest `limit` versions |
| `PgRuntime.Runtime.FlushMemory` | agentcook/src/agentcook_app/runtime_pg.py:228-248 | one step: only rows of the agent are deleted, and counted |
| `PgRuntime.AppendedRowIsNewest` | agentcook/src/agentcook_app/runtime_pg.py:160-164 | in a sequential run the row found by ORDER BY id DESC is the one just inserted |
| `PgRuntime.LatestSoulRow` | agentcook/src/agentcook_app/runtime_pg.py:107-127 | the row of greatest version is the last one appended, and its number is the count |
| `PgRuntime.SelectionIsTail` | agentcook/src/agentcook_app/runtime_pg.py:178-192 | "id > cursor" together with the filters selects the matching rows behind the cursor row |
| `PgRuntime.SortedSelection` | agentcook/src/agentcook_app/runtime_pg.py:193-219 | fetching limit + 1 rows in id order yields the page and the has-more flag |
| `PgRuntime.CursorReadsBack` | agentcook/src/agentcook_app/runtime_pg.py:186-191 | a printed id reads back as itself |
| `EventIds.IdsAre` | agentcook/src/agentcook_app/runtime_pg.py:165-165 | an id is the text evt_ and the number in decimal, in both runtimes |
| `PgRuntime.AppendEventRefinesLog` | agentcook/src/agentcook_app/runtime_pg.py:152-165 | an append keeps the tables representing the plain log and returns the new event; a refused one changes neither |
| `PgRuntime.FlushRefinesLog` | agentcook/src/agentcook_app/runtime_pg.py:228-248 | so does a flush, which leaves other agents alone |
| `PgRuntime.AppendSoulRefinesLog` | agentcook/src/agentcook_app/runtime_pg.py:119-137 | soul rows stay versions 1 to n without gaps |
| `PgRuntime.ListingRefinesLog` | agentcook/src/agentcook_app/runtime_pg.py:167-220 | for a readable `since`, a listing is the page of the plain log behind the cursor position, with any filters, timestamps printed anew |
| `PgRuntime.ListingFailsIff` | agentcook/src/agentcook_app/runtime_pg.py:176-192 | exactly when a listing fails, and with which error |
| `PgRuntime.StepRefinesLog` | agentcook/src/agentcook_app/runtime_pg.py:107-248 | every request keeps the representation and answers as the plain log does, with timestamps printed anew on pages; one with a timestamp that cannot be read is refused |
| `RuntimeSimulation.AdvanceInStep` | agentcook/src/agentcook_app/runtime_pg.py:107-248 | one admissible request, so one with readable timestamps, keeps both runtimes in step with one log; each gives the answer of the log under its own comparison and in its own rendering |
| `RuntimeSimulation.RunStaysInStep` | agentcook/src/agentcook_app/services.py:155-248 | both stay in step over every run of admissible requests |
| `RuntimeSimulation.BothAnswerAsTheLog` | agentcook/src/agentcook_app/runtime_pg.py:107-248 | the i-th request of every run gets one and the same answer of the log from both runtimes, each in its own names and spelling of timestamps, listings provided text order and instant order decide alike behind the cursor |
| `RuntimeSimulation.NamesAreOrderIsomorphic` | agentcook/src/agentcook_app/runtime_pg.py:165-165 | the k-th event has id k here and the id of the k-th row there, in the same order |
| `RuntimeSimulation.SamePages` | agentcook/src/agentcook_app/services.py:190-214 | under that proviso every listing of a run shows the same events in the same pages up to the spelling of timestamps and offers a cursor at the same moments; to the letter if and only if every timestamp on the page is spelled as the database prints it |
| `RuntimeSimulation.CanonicalRunsLookAlike` | agentcook/src/agentcook_app/routers/memory.py:241-250 | in a run whose timestamps all have the form the server writes, text order and instant order agree for every request and every listing is the same to the letter |
| `Timestamps.TextOrderIsTimeOrder` | agentcook/src/agentcook_app/routers/memory.py:121-122 | timestamps of that form sort as text exactly as the instants they denote, by the calendar with its leap years |
| `Timestamps.CanonicalText` | agentcook/src/agentcook_app/runtime_pg.py:181-207 | so it does not matter for them whether text or instants are compared, and they come back from the database as they were |
| `Timestamps.DaysAreConsecutive` | agentcook/src/agentcook_app/runtime_pg.py:181-207 | the day numbers behind those instants count the dates of the calendar one by one, within a month and from its last day, leap days included, to the first of the next |
| `Timestamps.YearsAreConsecutive` | agentcook/src/agentcook_app/runtime_pg.py:181-207 | and from the last day of a year to the first of the next one |
| `Timestamps.InstantsCount` | agentcook/src/agentcook_app/runtime_pg.py:181-207 | between two moments lie as many microseconds as days, hours, minutes and seconds make |
| `Timestamps.TextIs` | agentcook/src/agentcook_app/routers/memory.py:121-122 | the form the server writes: year, month and day in figures, each at its place and between its marks, then the time |
| `Timestamps.TimeIs` | agentcook/src/agentcook_app/routers/memory.py:121-122 | the time in it: hour, minute and second in figures, then +00:00 |
| `RuntimeSimulation.HandedOutCursorsAreUsable` | agentcook/src/agentcook_app/services.py:212-214 | a cursor handed out names an event that passes the filters it was handed out for |
| `RuntimeSimulation.PoliteRunsAreAdmissible` | agentcook/src/agentcook_app/services.py:190-214 | every run in which clients send back only cursors handed out for the same filters since the last flush is admissible |
| `RuntimeDifferences.StaysInStepIff` | agentcook-storage/src/agentcook_storage/memory_store.py:122-136 | a request keeps both runtimes in step with the log if and only if it does not store an event whose timestamp cannot be read; Postgres refuses every request with such a timestamp and changes nothing |
| `RuntimeDifferences.UnreadableTimestampSplits` | agentcook-storage/src/agentcook_storage/memory_store.py:130-130 | a run in which one runtime stores and lists an event and the other refuses it and lists nothing |
| `RuntimeDifferences.ListingsAgreeIff` | agentcook/src/agentcook_app/services.py:201-214 | for every limit, any filters and any cursor naming an event: the two runtimes list the same events up to spelling if and only if `since` can be read and the two comparisons agree on the events behind a cursor that passes the filters, or Postgres finds nothing behind one that does not |
| `RuntimeDifferences.ListingsEqualIff` | agentcook/src/agentcook_app/runtime_pg.py:201-216 | they list the same to the letter if and only if in addition every matching event behind the cursor was sent in the spelling the database prints |
| `RuntimeDifferences.SameSelection` | agentcook/src/agentcook_app/services.py:201-204 | lists that read alike, verbatim or respelled, select the same events: the step behind both |
| `RuntimeDifferences.SpellingMatters` | agentcook/src/agentcook_app/services.py:201-202 | a run in which they list different events: one stored as ...+00:00 and listed since the same moment spelled ...Z |
| `RuntimeDifferences.SpellingShows` | agentcook/src/agentcook_app/runtime_pg.py:207-207 | a run in which they list the same event and its timestamp reads ...Z here and ...+00:00 there |
| `RuntimeDifferences.AssumptionsAreConsistent` | agentcook-storage/src/agentcook_storage/memory_store.py:40-47 | the calendar with a final Z read as +00:00 is a clock of which everything assumed in these theorems and runs holds |
| `RuntimeDifferences.ChangedFiltersAgreeIff` | agentcook/src/agentcook_app/services.py:205-211 | with other filters, comparisons aside, the two pages show the same events if and only if `since` can be read and the cursor's event passes them or nothing behind it does |
| `RuntimeDifferences.HistoriesAre` | agentcook/src/agentcook_app/services.py:173-178 | what the two soul histories are after any run: the newest `limit` versions here and all for a limit of zero, the oldest `limit` there, ascending in both |
| `RuntimeDifferences.UnknownAgentHasNoHistory` | agentcook/src/agentcook_app/services.py:173-178 | an unknown agent is the same error in both |
| `RuntimeDifferences.HistoriesAgreeIff` | agentcook/src/agentcook_app/runtime_pg.py:139-150 | the two soul histories are equal if and only if the whole history fits the limit |
| `RuntimeDifferences.HistoriesDiffer` | agentcook/src/agentcook_app/runtime_pg.py:139-150 | a run after which they are not |
| `EventPaging.PagingIsComplete` | agentcook/src/agentcook_app/services.py:190-214 | in either runtime, while others append between pages, the pages so far are a prefix of the filtered list as it stands, and all of it once a page comes without a cursor |
| `EventPaging.HarmlessKeeps` | agentcook/src/agentcook_app/runtime_pg.py:152-220 | requests of others, refused or not, keep the representation and how every event is named and shown |
| `EventPaging.FetchJoins` | agentcook/src/agentcook_app/runtime_pg.py:167-220 | a call the runtime answers adds its page; one whose `since` Postgres cannot read leaves the client where it is |
| `EventPaging.RunKeepsPlace` | agentcook/src/agentcook_app/services.py:180-214 | the cursor always stands right behind what has been collected |
| `EventPaging.PageMoves` | agentcook/src/agentcook_app/services.py:205-214 | a page holds exactly what matches between its start and the next cursor |
| `EventPaging.OthersOnlyAppend` | agentcook/src/agentcook_app/services.py:180-188 | requests of others only extend the list being paged |
| `EventPaging.OnePage` | agentcook/src/agentcook_app/services.py:212-214 | a call the runtime answers ends the walk if and only if what is left fits its page; otherwise the page is full |
| `EventPaging.WalkLength` | agentcook/src/agentcook_app/services.py:190-214 | an undisturbed walk is over exactly at call max(1, ceil(n / limit)) |
| `Sse.ParseSseLines` | agentcook-app/src/hooks/useSseChat.ts:37-65 | the loop computes the text and the done flag of all finished lines and leaves the unfinished one |
| `Sse.ReadLoop` | agentcook-app/src/hooks/useSseChat.ts:150-194 | the connection ends with the text of all chunks, or with nothing to show if there is none and no terminator came; every notification properly extends the one before, and the last one is the final text |
| `Sse.StreamView.Consume` | agentcook-admin/src/composables/useSseStream.ts:123-167 | the composable shows the same text, and is no longer running at the end |
| `Sse.ScanStopsAtDone` | agentcook-app/src/hooks/useSseChat.ts:47-63 | the content is what the lines before the first terminator contribute and nothing behind it; done if and only if there is one |
| `Sse.RemainderHasNoNewline` | agentcook-app/src/hooks/useSseChat.ts:38-42 | the remainder is the text behind the last newline |
| `Sse.ParseMore` | agentcook-admin/src/composables/useSseStream.ts:28-56 | parsing a longer text only needs the remainder of the shorter one |
| `Sse.ChunkingDoesNotMatter` | agentcook-app/src/hooks/useSseChat.ts:142-193 | for every cutting into chunks, text and done flag are those of one parse of the whole text |
| `Sse.TwoChunkings` | agentcook-admin/src/composables/useSseStream.ts:125-166 | two cuttings of one text end alike |
| `Sse.NothingIsDropped` | agentcook-app/src/hooks/useSseChat.ts:180-182 | until the terminator, finished lines plus buffer are the text received |
| `Sse.DoneIsFinal` | agentcook-app/src/hooks/useSseChat.ts:189-193 | nothing is read after the terminator |
| `Sse.SentIsRead` | agentcook-app/src/hooks/useSseChat.ts:37-65 | from the wire to the screen: lines "data: " + payload, comments, blank lines and other fields, each between any white space and ended by a newline, cut into chunks anywhere, are read as the decoded payloads in order, and the reader is not done |
| `Sse.TerminatorIsRecognized` | agentcook-admin/src/composables/useSseStream.ts:28-56 | with "data: [DONE]" behind them, the same text and the reader is done, whatever follows |
| `Sse.WhiteSpaceIs` | agentcook-app/src/hooks/useSseChat.ts:48-48 | the 25 characters `trim` removes |
| `RateLimit.KeyTextInjective` | workers/rate-limit/src/index.ts:83-83 | two checks share a counter only if scope, identifier and window agree, colons in identifiers or not |
| `RateLimit.Worker.constructor` | workers/rate-limit/src/index.ts:112-113 | a fresh namespace and the two limits |
| `RateLimit.Worker.CheckAndIncrement` | workers/rate-limit/src/index.ts:76-102 | one check: the counter one up with a fresh expiry, nothing else changed, and the verdict on the new value |
| `RateLimit.Worker.Fetch` | workers/rate-limit/src/index.ts:111-170 | one request: store and answer of the two checks, as the theorems below describe them |
| `RateLimit.StoreCounts` | workers/rate-limit/src/index.ts:82-93 | after any series of checks every counter is the number of checks of its window |
| `RateLimit.SignedInAnswer` | workers/rate-limit/src/index.ts:116-170 | after any series of requests, one that names a user is refused for the user if and only if it is beyond the user limit among that user's requests of the minute, else for the address if and only if beyond that limit, and is otherwise forwarded with what is left to the user |
| `RateLimit.AnonymousAnswer` | workers/rate-limit/src/index.ts:116-170 | one that names none is answered by its address alone |
| `RateLimit.CountersMoved` | workers/rate-limit/src/index.ts:82-93 | the store after a request that names a user: the counter of that user's minute and that of the address's, each set to the number of requests it has seen, for 90 seconds; every other key is left alone |
| `RateLimit.AddressCounterMoved` | workers/rate-limit/src/index.ts:82-93 | after one that names none: only the address's |
| `RateLimit.KeysAre` | workers/rate-limit/src/index.ts:83-83 | the keys, spelled out |
| `RateLimit.LiveCounterIsRead` | workers/rate-limit/src/index.ts:92-93 | the 90 seconds outlive the window: a live counter is never missing |
| `RateLimit.CounterLives` | workers/rate-limit/src/index.ts:92-93 | a counter reads as the number of its checks for 90 seconds after the last one, and as nothing from then on |
| `RateLimit.ExactAdmission` | workers/rate-limit/src/index.ts:88-101 | the k-th check of a window is allowed if and only if k is within the limit, and reports what is left |
| `RateLimit.AdmitsTheFirst` | workers/rate-limit/src/index.ts:88-101 | so exactly the first `limit` checks of a window are allowed |
| `RateLimit.SpanBound` | workers/rate-limit/src/index.ts:62-65 | any 60 seconds admit at most twice the limit per key |
| `RateLimit.BoundIsMet` | workers/rate-limit/src/index.ts:62-65 | and twice the limit can happen within a millisecond |
| `RateLimit.ResetIsWindowEnd` | workers/rate-limit/src/index.ts:84-84 | the reset time is the start of the next window, at most a minute ahead |
| `RateLimitRaces.RunKeepsInv` | workers/rate-limit/src/index.ts:76-102 | the invariant of the interleaved get / put system holds in every reachable state |
| `RateLimitRaces.GetKeepsInv` | workers/rate-limit/src/index.ts:88-90 | a get keeps it, whether it sees the newest value, a stale one or none |
| `RateLimitRaces.PutKeepsInv` | workers/rate-limit/src/index.ts:93-93 | a put keeps it, whatever it overwrites |
| `RateLimitRaces.CountersNeverOvercount` | workers/rate-limit/src/index.ts:86-93 | no stored value exceeds the number of different requests that wrote its key |
| `RateLimitRaces.DenialIsDeserved` | workers/rate-limit/src/index.ts:127-129 | a refusal means that more than `limit` different requests hit that scope in the window it names |
| `RateLimitRaces.WronglyAllowedIff` | workers/rate-limit/src/index.ts:86-101 | in every run a check beyond its rank is allowed if and only if its get saw fewer than `limit` although at least `limit` others had written by its put; a check that saw them all decides by its rank |
| `RateLimitRaces.OneAtATimeAdmitsTheFirst` | workers/rate-limit/src/index.ts:86-101 | if every check of a counter is fresh and isolated, exactly the first `limit` writers are allowed, whatever else races |
| `RateLimitRaces.WritersAreCounted` | workers/rate-limit/src/index.ts:88-93 | no request writes a counter twice |
| `RateLimitRaces.FinishedHasWritten` | workers/rate-limit/src/index.ts:118-125 | a request that has finished its checks has written one counter of its user, if it names one, then one of its address, and nothing else |
| `RateLimitRaces.RaceAdmitsBoth` | workers/rate-limit/src/index.ts:86-93 | a run in which two requests pass a limit of one |
| `ToolCallStream.FeedUpdatesItsSlot` | agentcook-providers/src/agentcook_providers/openai_provider.py:282-294 | a fragment of a known index extends name and arguments of its slot and touches no other |
| `ToolCallStream.FeedOpensASlot` | agentcook-providers/src/agentcook_providers/openai_provider.py:282-294 | a fragment of a new index opens a slot at the end |
| `ToolCallStream.SlotsAreJoinedPieces` | agentcook-providers/src/agentcook_providers/openai_provider.py:279-294 | for every stream of fragments the slots are, in order of first appearance, the first id with the joined names and arguments |
| `ToolCallStream.ReassemblyUndoesFragmentation` | agentcook-providers/src/agentcook_providers/openai_provider.py:279-304 | for every cutting and order-preserving interleaving of a set of calls, the slots are exactly those calls |
| `ToolCallStream.Accumulate` | agentcook-providers/src/agentcook_providers/openai_provider.py:279-294 | the inner loop over one chunk's fragments |
| `ToolCallStream.Emit` | agentcook-providers/src/agentcook_providers/openai_provider.py:296-304 | all slots in order, unless some arguments do not parse |
| `ToolCallStream.StreamChat` | agentcook-providers/src/agentcook_providers/openai_provider.py:268-314 | every chunk with a choice is answered in order; the stream breaks off only at a tool-call finish whose arguments do not parse |
| `ToolCallStream.NothingEarlyAndTextKept` | agentcook-providers/src/agentcook_providers/openai_provider.py:306-314 | no call is emitted before a tool-call finish, and the text deltas join to the text received |
| `ToolCallStream.FinishEmitsTheCalls` | agentcook-providers/src/agentcook_providers/openai_provider.py:279-316 | the finishing chunk carries exactly the model's calls, in order of first appearance, whatever the cutting and interleaving: each under the id of its first fragment, or the generated one if that is empty, with its joined name and its arguments decoded |
| `ToolCallStream.BreaksOffIff` | agentcook-providers/src/agentcook_providers/openai_provider.py:296-304 | at a tool-call finish the stream breaks off if and only if some call has arguments, not empty, that do not decode |
| `ToolCallStream.RestIsPassedThrough` | agentcook-providers/src/agentcook_providers/openai_provider.py:306-316 | text and finish reason of every answered chunk are passed through, and before a tool-call finish there are no calls |
| `TtlStore.PrefixSelectsLayer` | agentcook-core/src/agentcook_core/memory.py:184-189 | the prefix test selects exactly the asked layer, whatever colons agent id and key contain |
| `TtlStore.CompoundInjective` | agentcook-core/src/agentcook_core/memory.py:159-160 | within an agent a flattened key determines layer and key |
| `TtlStore.FlattenedKeys` | agentcook-core/src/agentcook_core/memory.py:159-160 | the keys, spelled out |
| `TtlStore.InMemoryStore.constructor` | agentcook-core/src/agentcook_core/memory.py:156-157 | an empty, well-formed store |
| `TtlStore.InMemoryStore.WriteEntry` | agentcook-core/src/agentcook_core/memory.py:162-164 | the new data, and that keys stay unique and under their own flattened names |
| `TtlStore.InMemoryStore.ReadEntry` | agentcook-core/src/agentcook_core/memory.py:166-173 | the entry unless expired; an expired one is removed, nothing else changes |
| `TtlStore.InMemoryStore.List` | agentcook-core/src/agentcook_core/memory.py:175-199 | the reported entries and the data after the lazy purge |
| `TtlStore.InMemoryStore.SweepEntries` | agentcook-core/src/agentcook_core/memory.py:187-199 | the loop over the snapshot: what is kept and what is reported |
| `TtlStore.InMemoryStore.DeleteEntry` | agentcook-core/src/agentcook_core/memory.py:201-207 | the entry is gone, nothing else changes; tells whether one was stored, expired or not |
| `TtlStore.InMemoryStore.ExpireAll` | agentcook-core/src/agentcook_core/memory.py:209-214 | the agent's expired entries are gone, nothing else changes; tells how many |
| `TtlStore.OperationPurges` | agentcook-core/src/agentcook_core/memory.py:166-214 | reads, listings and `expire` take away nothing but expired entries |
| `TtlStore.StepRefinesPlain` | agentcook-core/src/agentcook_core/memory.py:162-214 | every operation keeps the store a refinement of a plain map |
| `TtlStore.RunRefinesPlain` | agentcook-core/src/agentcook_core/memory.py:162-214 | so does every run under a monotone clock |
| `TtlStore.ReadIsPlain` | agentcook-core/src/agentcook_core/memory.py:166-173 | after any run a read returns the latest write to its place that was neither deleted nor outlived |
| `TtlStore.ReadReturnsIff` | agentcook-core/src/agentcook_core/memory.py:72-77 | a read returns an entry if and only if it is the latest undeleted write to its place and either never expires or `now` is at most its timestamp plus its time to live |
| `TtlStore.ExpireLeavesIff` | agentcook-core/src/agentcook_core/memory.py:209-214 | `expire` leaves exactly those entries of its agent, and other agents alone |
| `TtlStore.ReadLeaves` | agentcook-core/src/agentcook_core/memory.py:166-173 | what is stored after a read is what the read returned, and everything else as before |
| `TtlStore.ListingLeaves` | agentcook-core/src/agentcook_core/memory.py:187-199 | a listing that is not cut short leaves of its layer what reads would return, and everything else as before |
| `TtlStore.PurgingIsInvisible` | agentcook-core/src/agentcook_core/memory.py:170-192 | runs with the same writes and deletes answer every later read alike, wherever purging happens |
| `TtlStore.SweepReports` | agentcook-core/src/agentcook_core/memory.py:187-199 | a listing reports the first qualifying entries up to its limit, in order |
| `TtlStore.ListingIsPlain` | agentcook-core/src/agentcook_core/memory.py:175-199 | after any run it reports only entries of the layer with the prefix that are latest undeleted writes and not past timestamp plus time to live, at most `limit` and at most one for a limit below one, and all of them unless it stops there |
| `DuplicatePruning.Prune` | agentcook-core/src/agentcook_core/pruning.py:210-272 | the loop with its two trackers computes the pruned history, and dropped_count is what is missing |
| `DuplicatePruning.TrackersRemember` | agentcook-core/src/agentcook_core/pruning.py:226-268 | the trackers are a function of the messages kept so far |
| `DuplicatePruning.DroppedIff` | agentcook-core/src/agentcook_core/pruning.py:238-262 | exactly when a message is dropped, in terms of the kept messages before it |
| `DuplicatePruning.DroppedIffRepeats` | agentcook-core/src/agentcook_core/pruning.py:238-262 | exactly when a message is dropped, in terms of the input before it: an empty turn, a user text equal to the last turn said, a call-only turn with the signature of the last turn that does not itself repeat |
| `DuplicatePruning.DroppedAtIff` | agentcook-core/src/agentcook_core/pruning.py:238-262 | the same place by place and by role, text and calls alone: what one more message does to the kept ones |
| `DuplicatePruning.KeepsTheFirst` | agentcook-core/src/agentcook_core/pruning.py:243-245 | of two identical user messages the first stays (the docstring at line 198 says the latest) |
| `DuplicatePruning.DropsAcrossToolCalls` | agentcook-core/src/agentcook_core/pruning.py:243-262 | they need not be adjacent: a call-only turn in between does not save the second |
| `DuplicatePruning.SecondGreetingIsDropped` | agentcook-core/src/agentcook_core/pruning.py:243-262 | an input that shows both |
| `DuplicatePruning.SignaturesCollide` | agentcook-core/src/agentcook_core/pruning.py:324-330 | two different call lists with the same signature |
| `DuplicatePruning.CollisionDropsATurn` | agentcook-core/src/agentcook_core/pruning.py:256-262 | a history in which a turn is dropped that repeats nothing |
| `DuplicatePruning.SignatureIsFaithful` | agentcook-core/src/agentcook_core/pruning.py:324-330 | if names are free of the separator and no printed arguments start with those of the other list and a separator, equal signatures mean equal names and arguments in the same order |
| `DuplicatePruning.NamesSuffice` | agentcook-core/src/agentcook_core/pruning.py:324-330 | for a printer whose texts delimit themselves, as those of lists do, that condition is about names alone |
| `DuplicatePruning.NoSeparatorSuffices` | agentcook-core/src/agentcook_core/pruning.py:324-330 | for any printer it holds when arguments contain no separator either |
| `DuplicatePruning.FaithfulDropsRepeatCalls` | agentcook-core/src/agentcook_core/pruning.py:256-262 | then a call-only turn is dropped if and only if it makes the calls of the last turn again |
| `DuplicatePruning.PruneIsIdempotent` | agentcook-core/src/agentcook_core/pruning.py:210-272 | a second pass drops nothing |
| `DuplicatePruning.PruneKeepsContent` | agentcook-core/src/agentcook_core/pruning.py:210-272 | a subsequence with every system message and the protected tail |
| `DuplicatePruning.PruneLeavesNoRepeats` | agentcook-core/src/agentcook_core/pruning.py:210-272 | before the tail no empty assistant turn is left, no two user neighbours with one text, no two call-only neighbours with one signature |
| `DuplicatePruning.PruneKeepsTexts` | agentcook-core/src/agentcook_core/pruning.py:210-272 | every user text and every signature of a call-only turn is still in the output |
| `RelevancePruning.PassesIsTheScoreTest` | agentcook-core/src/agentcook_core/pruning.py:157-161 | the root-free test decides as `similarity * decay >= min_score` does |
| `RelevancePruning.FindAnchor` | agentcook-core/src/agentcook_core/pruning.py:317-321 | the newest non-empty user text, unless an anchor is given |
| `RelevancePruning.Prune` | agentcook-core/src/agentcook_core/pruning.py:113-177 | the loop computes the survivors, and dropped_count is what is missing |
| `RelevancePruning.SameAnchorKeepsAll` | agentcook-core/src/agentcook_core/pruning.py:136-164 | scored against the same anchor, survivors survive again: they only get younger |
| `RelevancePruning.AnchorSurvives` | agentcook-core/src/agentcook_core/pruning.py:127-164 | if the anchoring message is kept, the anchor stays the same |
| `RelevancePruning.LostAnchorLeavesNone` | agentcook-core/src/agentcook_core/pruning.py:127-164 | if it is lost and nothing is more similar to it than itself, no user text survives |
| `RelevancePruning.PruneIsIdempotent` | agentcook-core/src/agentcook_core/pruning.py:113-177 | a second pass changes nothing when the anchor is given, or kept, or self-similarity is maximal |
| `RelevancePruning.IdempotentIff` | agentcook-core/src/agentcook_core/pruning.py:113-177 | exactly when a second pass changes nothing, for every history |
| `RelevancePruning.SecondPassCanDropMore` | agentcook-core/src/agentcook_core/pruning.py:127-164 | without those conditions it can: a concrete history |
| `RelevancePruning.SystemSurvives` | agentcook-core/src/agentcook_core/pruning.py:138-140 | every system message survives, in order |
| `RelevancePruning.OnlyWorthySurvive` | agentcook-core/src/agentcook_core/pruning.py:145-166 | every call-only turn survives; before the protected tail no other empty turn does, and a text only with a passing score |
| `RelevancePruning.TailSurvives` | agentcook-core/src/agentcook_core/pruning.py:133-141 | the protected tail survives at the end |
| `CompositePruning.Prune` | agentcook-core/src/agentcook_core/pruning.py:286-309 | stages run in order, counts summed and listed per stage |
| `CompositePruning.DropsAreConserved` | agentcook-core/src/agentcook_core/pruning.py:296-308 | the total is what is missing from the output |
| `CompositePruning.StagesCompose` | agentcook-core/src/agentcook_core/pruning.py:296-308 | running two chains in a row is running the joined chain |
| `CompositePruning.FixedIff` | agentcook-core/src/agentcook_core/pruning.py:296-308 | a chain of shrinking stages leaves messages alone if and only if each stage does |
| `CompositePruning.IdempotentIff` | agentcook-core/src/agentcook_core/pruning.py:296-308 | so a second run changes nothing if and only if every stage leaves the first output alone |
| `CompositePruning.ChainsOfTheTwo` | agentcook-core/src/agentcook_core/pruning.py:286-309 | for chains of relevance and duplicate pruning in any order and number these statements need no further assumption |
| `CompositePruning.RelevanceFirstIsIdempotent` | agentcook-core/src/agentcook_core/pruning.py:286-309 | relevance pruning followed by duplicate pruning is idempotent wherever relevance pruning is |
| `CompositePruning.DuplicatesFirstIsIdempotent` | agentcook-core/src/agentcook_core/pruning.py:286-309 | the recommended order is idempotent on every history without equal user texts or equal call signatures before the protected tail, if the anchor is given or kept or self-similarity is maximal |
| `CompositePruning.ChainIsNotIdempotent` | agentcook-core/src/agentcook_core/pruning.py:12-13 | the recommended order is not: a run of the chain of two idempotent strategies that drops something the second time |
| `ModelRouter.ModelRegistry.Register` | agentcook-core/src/agentcook_core/model_router.py:117-120 | looks up as before except for the new config under its name; a known name keeps its place, a new one goes to the end |
| `ModelRouter.ModelRegistry.Unregister` | agentcook-core/src/agentcook_core/model_router.py:122-124 | returns and removes what was under the name; the others keep their order |
| `ModelRouter.ModelRegistry.ListEnabled` | agentcook-core/src/agentcook_core/model_router.py:130-141 | the enabled models that match the filters, in registration order |
| `ModelRouter.Router.SelectModel` | agentcook-core/src/agentcook_core/model_router.py:181-258 | one selection over the registry as it is, and the counter after it |
| `ModelRouter.Router.SelectWithFallback` | agentcook-core/src/agentcook_core/model_router.py:260-273 | a selection by fallback order that excludes the failed models |
| `ModelRouter.Router.ApplyPolicy` | agentcook-core/src/agentcook_core/model_router.py:279-294 | the pick of the policy; only round robin moves the counter |
| `ModelRouter.SelectedIsBest` | agentcook-core/src/agentcook_core/model_router.py:211-237 | the selected model is registered, enabled, of the provider and with the tag asked for, not excluded and up, and of all such models the cheapest, best or first as asked |
| `ModelRouter.SelectedIff` | agentcook-core/src/agentcook_core/model_router.py:211-235 | a model is selected if and only if such a model exists; the router finds none eligible if and only if none matches, up or not |
| `ModelRouter.ReportedNames` | agentcook-core/src/agentcook_core/model_router.py:223-235 | the names reported as tried are those of the matching models that are down; an error that all are down names all of them |
| `ModelRouter.CandidatesAreWanted` | agentcook-core/src/agentcook_core/model_router.py:130-222 | candidates are exactly the registered models that are enabled, match provider and tag if given and not empty, and are not excluded |
| `ModelRouter.FirstMinIsFirst` | agentcook-core/src/agentcook_core/model_router.py:280-284 | ties go to the model registered first |
| `ModelRouter.SortTakesFirstMin` | agentcook-core/src/agentcook_core/model_router.py:293-294 | taking the first minimum again and again is stable sorting |
| `ModelRouter.ExcludeOneMore` | agentcook-core/src/agentcook_core/model_router.py:212-222 | excluding one more name takes exactly that model away |
| `ModelRouter.FallbackIsExhaustive` | agentcook-core/src/agentcook_core/model_router.py:260-294 | adding every returned model to the failed list visits each matching model that is up exactly once, stably sorted by fallback_order, and then the router raises |
| `ModelRouter.PicksGoRound` | agentcook-core/src/agentcook_core/model_router.py:286-291 | round-robin picks go through the pool, sorted by name, from where the counter stands, undisturbed by other policies and failing selections |
| `ModelRouter.PicksAreCounted` | agentcook-core/src/agentcook_core/model_router.py:286-291 | there are as many of these picks as round-robin selections with something up |
| `ModelRouter.RoundRobinIsFair` | agentcook-core/src/agentcook_core/model_router.py:286-291 | any k * n consecutive round-robin picks choose each of n models exactly k times |
| `HookPipeline.HookRegistry.Register` | agentcook-core/src/agentcook_core/hook_runtime.py:204-217 | the registration joins the log, and the hook the global list or its event's list, at the end |
| `HookPipeline.HookRegistry.Unregister` | agentcook-core/src/agentcook_core/hook_runtime.py:219-230 | log and lists lose exactly the hooks of that name; the count is the difference |
| `HookPipeline.HookRegistry.Without` | agentcook-core/src/agentcook_core/hook_runtime.py:221-225 | the loop over the event lists |
| `HookPipeline.HookRegistry.GetHooks` | agentcook-core/src/agentcook_core/hook_runtime.py:232-235 | of all registrations that still count, the global ones, then the event's own, each in registration order |
| `HookPipeline.DispatchedInOrderIff` | agentcook-core/src/agentcook_core/hook_runtime.py:232-235 | the registrations dispatched are in registration order, as the docstring says, if and only if no global one came after one of the event's own |
| `HookPipeline.HooksInOrderIff` | agentcook-core/src/agentcook_core/hook_runtime.py:232-235 | the hooks returned are in that order if so, and only if so unless a hook is registered twice |
| `HookPipeline.LateGlobalComesFirst` | agentcook-core/src/agentcook_core/hook_runtime.py:232-235 | two registrations for which it is not |
| `HookPipeline.RepeatedHookHidesTheOrder` | agentcook-core/src/agentcook_core/hook_runtime.py:232-235 | a hook registered twice, for which the hooks agree and the registrations do not |
| `HookPipeline.Pipeline.ExecuteEvent` | agentcook-core/src/agentcook_core/hook_runtime.py:274-310 | an event runs the hooks registered for it, in that order, around the core |
| `HookPipeline.RunPre` | agentcook-core/src/agentcook_core/hook_runtime.py:322-339 | calls, count, failure and cancellation of the pre-execute loop |
| `HookPipeline.RunPost` | agentcook-core/src/agentcook_core/hook_runtime.py:365-379 | the same for the post-execute loop, and for its silent variant after a raising core |
| `HookPipeline.Execute` | agentcook-core/src/agentcook_core/hook_runtime.py:312-390 | the whole execution, against a closed form of its trace and result |
| `HookPipeline.OnionTrace` | agentcook-core/src/agentcook_core/hook_runtime.py:312-390 | without fail_fast: pre-hooks up to the first cancellation, core if and only if none, every post-hook in reverse; executed is the number of calls in the trace that do not raise; success if and only if the core returned and nothing ever cancelled |
| `HookPipeline.ExecutedIsReturned` | agentcook-core/src/agentcook_core/hook_runtime.py:312-390 | for every mode and outcome, executed is the number of hook calls that returned, except that post-hooks run after a raising core under fail_fast are not counted |
| `HookPipeline.ResultTells` | agentcook-core/src/agentcook_core/hook_runtime.py:312-390 | output, error and success for every mode and mix of outcomes: under fail_fast the failing call with its hook's name or the core's error; otherwise the core's output, its error, or the latest reason for which something cancelled |
| `HookPipeline.CallsNest` | agentcook-core/src/agentcook_core/hook_runtime.py:255-263 | of two entered hooks the later one is left first, with the core between |
| `HookPipeline.EachPostOnce` | agentcook-core/src/agentcook_core/hook_runtime.py:366-369 | every post-hook runs exactly once, also when its pre-hook was skipped |
| `HookPipeline.FailFast` | agentcook-core/src/agentcook_core/hook_runtime.py:328-363 | a raising pre-hook keeps core and post-hooks from running; a raising core still runs every post-hook |
| `HookPipeline.SomePostRunsIff` | agentcook-core/src/agentcook_core/hook_runtime.py:323-369 | some post-hook runs if and only if no pre-hook aborts the execution |
| `HookPipeline.AllPostsRunAfterCancelIff` | agentcook-core/src/agentcook_core/hook_runtime.py:261-262 | after a cancellation every post-hook runs if and only if fail_fast is off, or the cancelling pre-hook did not raise and no post-hook but the outermost raises |
| `HookPipeline.CancelAndRaiseSkipsPosts` | agentcook-core/src/agentcook_core/hook_runtime.py:261-262 | an execution in which none runs |
| `FallbackProvider.RunChat` | agentcook-providers/src/agentcook_providers/fallback.py:78-108 | the loop of `chat` computes the chain's answer and the providers called |
| `FallbackProvider.RetriesCannotBeSwitchedOff` | agentcook-providers/src/agentcook_providers/fallback.py:57-58 | an empty set of codes selects the six default codes and an empty tuple of keywords the default words, so those failures always fall through |
| `FallbackProvider.RetryableIff` | agentcook-providers/src/agentcook_providers/fallback.py:71-76 | a failure is retryable if and only if its status code, or its status if it has none or zero, is among the codes, or some keyword occurs in its lower-cased message |
| `FallbackProvider.DefaultsAre` | agentcook-providers/src/agentcook_providers/fallback.py:20-31 | with nothing configured: six codes and five phrases, and nothing else |
| `FallbackProvider.ConfiguredAre` | agentcook-providers/src/agentcook_providers/fallback.py:57-58 | codes and keywords given and not empty replace the default ones, each on their own |
| `FallbackProvider.GoesOnIff` | agentcook-providers/src/agentcook_providers/fallback.py:87-140 | in `chat` and `stream_chat` a failure that is not retryable, and any of the last provider, is raised at once; a retryable one of another goes on to the next |
| `FallbackProvider.RunStream` | agentcook-providers/src/agentcook_providers/fallback.py:110-142 | the loop of `stream_chat` computes the chunks yielded, how it ends and the providers called |
| `FallbackProvider.ChatSplits` | agentcook-providers/src/agentcook_providers/fallback.py:87-106 | a chain in two parts enters the second when the first fails retryably |
| `FallbackProvider.StreamSplits` | agentcook-providers/src/agentcook_providers/fallback.py:119-140 | the same for streams, partial output kept |
| `FallbackProvider.NestedIsFlat` | agentcook-providers/src/agentcook_providers/fallback.py:33-45 | any nesting of chains answers, raises and streams exactly as the flat chain of its leaves |
| `FallbackProvider.ChatDecider` | agentcook-providers/src/agentcook_providers/fallback.py:87-106 | the answer is that of the first provider not failing retryably, or of the last; only those before it were called |
| `FallbackProvider.StreamDecider` | agentcook-providers/src/agentcook_providers/fallback.py:119-140 | the stream is the partial output of the failed providers followed by that of the deciding one |

## Left out

- HTTP, asyncpg, the key-value service, model SDKs, JSON, regular expressions and embeddings: only the table, map or function each call acts on is modelled.
- `should_compact` triggers, constructor errors, telemetry spans, logging and durations: thin branching without state.
- `created_at` values and identity cards beyond their id: not needed by any property here.
- PgRuntime.Runtime.AppendMemoryEvent: what the database refuses or rewrites besides timestamps (a NUL character in a text, the JSON form of metadata) and a failing embedder are not modelled; columns come back as they were written.
- Which timestamps Python reads is a parameter; of it the theorems assume only what they name: that a printed instant reads back as itself, that the server's own form is read and printed by the calendar, and in two runs that a final Z is read as +00:00.
- `search_memory`, agent creation in Postgres and dependency wiring: not modelled.
- Concurrent `append_memory_event` calls on Postgres: insert and look-up are separate statements, so only sequential runs are modelled.
- PgRuntime.CursorReadsBack: of Python's `int` only reading back what `str` printed is assumed; other cursor texts give whatever the parameter gives.
- EventPaging.WalkLength: for walks in which nobody else sends a request; with appends in between only completeness is stated.
- TtlStore.InMemoryStore.SweepEntries: deletion during the loop is modelled by not carrying the entry over into the new dictionary.
- TtlStore.ListingIsPlain: one reading of the clock stands for a whole listing or `expire`, while the code reads it once per entry; and nothing is said about the order of a listing after purges and rewrites, which depends on them.
- RateLimit.Worker.CheckAndIncrement: the stored text of a counter is modelled as the number it prints, and get and put of one check happen at one time; `RateLimitRaces` separates them.
- Header values, Retry-After, token and address extraction in the limiter: the user id and the address are given.
- Retries, heartbeats, aborts and TextDecoder around the stream readers: one connection and its decoded chunks are modelled; text accumulated by earlier attempts is the starting value.
- Anthropic's and other providers' stream loops, and the request conversion of the OpenAI provider: not modelled.
- ToolCallStream.ReassemblyUndoesFragmentation: an identifier made up for a call without one is a given value of its first fragment.
- RelevancePruning.PassesIsTheScoreTest: scores are reals, so floating-point rounding of similarity and decay is not modelled.
- `QuotaResolver`, pattern routing, plugin, skill and connector registries, media rendering, authentication: thin branching or library work.
- HookPipeline.Execute: a hook's behaviour is fixed per execution; the data dictionary hooks share is not modelled, only the cancellation.
- ModelRouter.RoundRobinIsFair: the registry does not change during the run.
- Components of the user interfaces, stores, generated types, migrations and scripts.
