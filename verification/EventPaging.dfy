/**
 Cursor paging over a growing event list (list_memory_events in
 agentcook/src/agentcook_app/services.py and agentcook/src/agentcook_app/runtime_pg.py): a client
 walks the pages of one agent with fixed filters while anybody may append events between two pages.
 */
module EventPaging {
  import opened Wrappers
  import opened Seqs
  import opened AgentRuntime
  import opened Timestamps
  import Memory = InMemoryRuntime
  import Pg = PgRuntime

  /** Who is paging, over what; how the runtime compares timestamps, reads and prints them, and reads
      cursor text. */
  datatype Query = Query(
    atOrAfter: (string, string) -> bool,
    clock: Clock,
    toInt: string -> Option<int>,
    agent: string,
    filters: Filters)
  {
    function Test(): Stored<nat> -> bool {
      Matching(atOrAfter, filters)
    }

    /** The filtered list as it is now, in a runtime's rendering. */
    function Current(events: seq<MemoryEvent>, how: Rendering): seq<Stored<string>> {
      Map(Filter(Numbered(events), Test()), Rendered(how))
    }
  }

  // ---- either runtime ---------------------------------------------------------------------------

  datatype Runtime = InMemory(memory: Memory.State) | Postgres(pg: Pg.State)

  /** The runtime holds the log; Postgres compares the instants its clock reads. */
  ghost predicate Represents(q: Query, runtime: Runtime, log: Log) {
    match runtime
    case InMemory(memory) => Memory.Represents(memory, log)
    case Postgres(pg) => q.atOrAfter == q.clock.AtOrAfter() && Pg.Represents(q.clock, pg, log)
  }

  function RenderingIn(q: Query, runtime: Runtime): Rendering {
    match runtime
    case InMemory(_) => Memory.AsStored()
    case Postgres(pg) => Pg.AsRow(q.clock, pg.RowsOf(q.agent))
  }

  function ListingIn(q: Query, runtime: Runtime, limit: nat, cursor: Option<string>): Result<Page<string>, Error> {
    match runtime
    case InMemory(memory) => Memory.Listing(q.atOrAfter, memory, q.agent, q.filters, limit, cursor)
    case Postgres(pg) => Pg.Listing(q.clock, q.toInt, pg, q.agent, q.filters, limit, cursor)
  }

  function After(q: Query, runtime: Runtime, op: Op): Runtime {
    match runtime
    case InMemory(memory) => InMemory(Memory.Step(q.atOrAfter, memory, op).0)
    case Postgres(pg) => Postgres(Pg.Step(q.clock, q.toInt, pg, op).0)
  }

  /** The log after a request; Postgres refuses timestamps it cannot read. */
  function LogAfter(q: Query, runtime: Runtime, log: Log, op: Op): Log
    requires !op.ListEvents?
  {
    match runtime
    case InMemory(_) => LogStep(q.atOrAfter, log, op).0
    case Postgres(_) => Pg.GuardedStep(q.clock, log, op).0
  }

  /** A request of somebody else: anything but a flush of the agent being paged.  The database never
      reuses a serial value. */
  predicate Harmless(q: Query, runtime: Runtime, op: Op) {
    && !(op.Flush? && op.agent == q.agent)
    && !op.ListEvents?
    && (runtime.Postgres? && op.AppendEvent? ==> op.serial >= runtime.pg.nextSerial)
  }

  /** Others may do anything but list and flush what is being paged; appends to it are the point. */
  lemma {:induction false} OthersMay(q: Query, runtime: Runtime, op: Op)
    ensures op.AppendEvent? && runtime.InMemory? ==> Harmless(q, runtime, op)
    ensures op.AppendEvent? && runtime.Postgres? && op.serial >= runtime.pg.nextSerial ==> Harmless(q, runtime, op)
    ensures op.Flush? && op.agent != q.agent ==> Harmless(q, runtime, op)
    ensures op.AppendSoul? || op.LatestSoul? ==> Harmless(q, runtime, op)
  {
  }

  /** Whether the runtime can answer the listing at all. */
  predicate Answers(q: Query, runtime: Runtime) {
    runtime.Postgres? && q.filters.since.Some? ==> q.clock.Reads(q.filters.since.value)
  }

  lemma {:induction false} ListingInRefines(q: Query, runtime: Runtime, log: Log, limit: nat, seen: nat)
    requires Represents(q, runtime, log) && q.agent in log.agents && Pg.ReadsDecimals(q.toInt)
    requires limit >= 1 && seen <= |log.EventsOf(q.agent)|
    requires seen >= 1 ==> Matches(q.atOrAfter, q.filters, log.EventsOf(q.agent)[seen - 1])
    ensures
      var how := RenderingIn(q, runtime);
      var listed := ListingIn(q, runtime, limit, if seen == 0 then None else Some(how.name(seen)));
      var page := PageOf(Remaining(q.atOrAfter, log.EventsOf(q.agent), q.filters, seen), limit);
      if Answers(q, runtime) then listed == Success(RenderPage(page, how)) else listed.Failure?
  {
    match runtime {
      case InMemory(memory) => Memory.ListingRefinesLog(q.atOrAfter, memory, log, q.agent, q.filters, limit, seen);
      case Postgres(pg) =>
        if Answers(q, runtime) {
          Pg.ListingRefinesLog(q.clock, q.toInt, pg, log, q.agent, q.filters, limit, seen);
        }
    }
  }

  /** Requests of others keep the representation, and how a listed event is rendered. */
  lemma {:induction false} HarmlessKeeps(q: Query, runtime: Runtime, log: Log, op: Op)
    requires Represents(q, runtime, log) && Harmless(q, runtime, op) && Pg.ReadsDecimals(q.toInt)
    ensures Represents(q, After(q, runtime, op), LogAfter(q, runtime, log, op))
    ensures RenderingIn(q, After(q, runtime, op)).show == RenderingIn(q, runtime).show
    ensures forall k :: 1 <= k <= |log.EventsOf(q.agent)| ==>
              RenderingIn(q, After(q, runtime, op)).name(k) == RenderingIn(q, runtime).name(k)
  {
    match runtime {
      case InMemory(memory) => Memory.StepRefinesLog(q.atOrAfter, memory, log, op);
      case Postgres(pg) =>
        Pg.StepRefinesLog(q.clock, q.toInt, pg, log, op);
        RowsOnlyGrow(q, pg, op);
        assert Pg.Holds(q.clock, pg.RowsOf(q.agent), log.EventsOf(q.agent));
        Pg.SameSize(q.clock, pg.RowsOf(q.agent), log.EventsOf(q.agent));
    }
  }

  lemma {:induction false} RowsOnlyGrow(q: Query, pg: Pg.State, op: Op)
    requires Harmless(q, Postgres(pg), op)
    ensures pg.RowsOf(q.agent) <= Pg.Step(q.clock, q.toInt, pg, op).0.RowsOf(q.agent)
  {
    if op.agent in pg.agents {
      if op.AppendEvent? && q.clock.Reads(op.event.timestamp) {
        var row := Pg.EventRow(op.serial, op.agent, Pg.Encode(q.clock)(op.event));
        Pg.AppendedRows(pg.eventRows, row, q.agent);
      } else if op.Flush? {
        FilterTwice(pg.eventRows, Pg.NotOfAgent(op.agent), Pg.OfAgent(q.agent), Pg.OfAgent(q.agent));
      }
    }
  }

  // ---- the walk -----------------------------------------------------------------------------------

  /** What the client holds: the pages so far, joined, and the cursor to send next. */
  datatype Pager = Pager(collected: seq<Stored<string>>, cursor: Option<string>, done: bool)

  datatype Step = Other(op: Op) | Next(limit: nat)

  datatype World = World(log: Log, runtime: Runtime, pager: Pager) {
    function How(q: Query): Rendering {
      RenderingIn(q, runtime)
    }
  }

  /** What a page adds to what the client holds. */
  function Joined(pager: Pager, page: Page<string>): Pager {
    Pager(pager.collected + page.events, page.nextCursor, page.nextCursor.None?)
  }

  function Fetch(q: Query, runtime: Runtime, pager: Pager, limit: nat): Pager {
    match ListingIn(q, runtime, limit, pager.cursor)
    case Success(page) => Joined(pager, page)
    case Failure(_) => pager
  }

  ghost predicate Takes(q: Query, w: World, step: Step, w': World) {
    match step
    case Other(op) =>
      && Harmless(q, w.runtime, op)
      && w' == World(LogAfter(q, w.runtime, w.log, op), After(q, w.runtime, op), w.pager)
    case Next(limit) =>
      && limit >= 1 && !w.pager.done
      && w' == w.(pager := Fetch(q, w.runtime, w.pager, limit))
  }

  ghost predicate IsRun(q: Query, steps: seq<Step>, worlds: seq<World>) {
    && |worlds| == |steps| + 1
    && Represents(q, worlds[0].runtime, worlds[0].log)
    && q.agent in worlds[0].log.agents
    && worlds[0].pager == Pager([], None, false)
    && Pg.ReadsDecimals(q.toInt)
    && forall i :: 0 <= i < |steps| ==> Takes(q, worlds[i], steps[i], worlds[i + 1])
  }

  /** The pager has collected what matches among the first `seen` events, and its cursor stands
      right there. */
  ghost predicate SeenUpTo(q: Query, events: seq<MemoryEvent>, how: Rendering, pager: Pager, seen: nat) {
    && seen <= |events|
    && pager.collected == Map(Filter(Numbered(events)[..seen], q.Test()), Rendered(how))
    && (!pager.done ==>
          && pager.cursor == (if seen == 0 then None else Some(how.name(seen)))
          && (seen >= 1 ==> Matches(q.atOrAfter, q.filters, events[seen - 1])))
  }

  ghost predicate KeepsPlace(q: Query, w: World) {
    && Represents(q, w.runtime, w.log)
    && q.agent in w.log.agents
    && Pg.ReadsDecimals(q.toInt)
    && exists seen: nat :: StandsAt(q, w, seen)
  }

  ghost predicate StandsAt(q: Query, w: World, seen: nat) {
    SeenUpTo(q, w.log.EventsOf(q.agent), w.How(q), w.pager, seen)
  }

  /** One page in terms of positions: it holds exactly what matches between the place before
      and the place after it. */
  lemma {:induction false} PageMoves(q: Query, events: seq<MemoryEvent>, limit: nat, seen: nat) returns (next: nat)
    requires limit >= 1 && seen <= |events|
    ensures
      var rest := Remaining(q.atOrAfter, events, q.filters, seen);
      var page := PageOf(rest, limit);
      && seen <= next <= |events|
      && Filter(Numbered(events)[..next], q.Test()) == Filter(Numbered(events)[..seen], q.Test()) + page.events
      && (|rest| <= limit ==> next == |events| && page.nextCursor == None)
      && (|rest| > limit ==>
            && next > seen && page.nextCursor == Some(next)
            && Matches(q.atOrAfter, q.filters, events[next - 1]))
  {
    var rest := Remaining(q.atOrAfter, events, q.filters, seen);
    if |rest| > limit {
      next := InnerPage(q, events, limit, seen);
    } else {
      next := |events|;
      LastPage(q, events, limit, seen);
    }
  }

  lemma {:induction false} InnerPage(q: Query, events: seq<MemoryEvent>, limit: nat, seen: nat) returns (next: nat)
    requires limit >= 1 && seen <= |events| && |Remaining(q.atOrAfter, events, q.filters, seen)| > limit
    ensures seen < next <= |events| && Matches(q.atOrAfter, q.filters, events[next - 1])
    ensures
      var rest := Remaining(q.atOrAfter, events, q.filters, seen);
      && PageOf(rest, limit) == Page(rest[..limit], Some(next))
      && Filter(Numbered(events)[..next], q.Test()) == Filter(Numbered(events)[..seen], q.Test()) + rest[..limit]
  {
    var all := Numbered(events);
    next := CutBehindPick(all, q.Test(), seen, limit - 1);
    assert all[next - 1] == Stored(next, events[next - 1]);
  }

  lemma {:induction false} LastPage(q: Query, events: seq<MemoryEvent>, limit: nat, seen: nat)
    requires limit >= 1 && seen <= |events| && |Remaining(q.atOrAfter, events, q.filters, seen)| <= limit
    ensures
      var rest := Remaining(q.atOrAfter, events, q.filters, seen);
      && PageOf(rest, limit) == Page(rest, None)
      && Filter(Numbered(events)[..|events|], q.Test()) == Filter(Numbered(events)[..seen], q.Test()) + rest
  {
    var all := Numbered(events);
    FilterSplit(all, q.Test(), seen);
    assert all[..|events|] == all;
  }

  lemma {:induction false} FetchJoins(q: Query, w: World, limit: nat, seen: nat)
    requires KeepsPlace(q, w) && limit >= 1 && !w.pager.done
    requires StandsAt(q, w, seen)
    ensures
      var page := PageOf(Remaining(q.atOrAfter, w.log.EventsOf(q.agent), q.filters, seen), limit);
      Fetch(q, w.runtime, w.pager, limit)
        == if Answers(q, w.runtime) then Joined(w.pager, RenderPage(page, w.How(q))) else w.pager
  {
    ListingInRefines(q, w.runtime, w.log, limit, seen);
  }

  /** One page moves the pager's place forward by exactly the page's events. */
  lemma {:induction false} FetchKeepsPlace(q: Query, w: World, limit: nat, seen: nat) returns (next: nat)
    requires KeepsPlace(q, w) && limit >= 1 && !w.pager.done
    requires StandsAt(q, w, seen)
    ensures
      var pager := Fetch(q, w.runtime, w.pager, limit);
      && SeenUpTo(q, w.log.EventsOf(q.agent), w.How(q), pager, next)
      && (pager.done ==> next == |w.log.EventsOf(q.agent)|)
  {
    FetchJoins(q, w, limit, seen);
    if Answers(q, w.runtime) {
      next := JoinedKeepsPlace(q, w.log.EventsOf(q.agent), w.How(q), w.pager, limit, seen);
    } else {
      next := seen;
    }
  }

  lemma {:induction false} JoinedKeepsPlace(q: Query, events: seq<MemoryEvent>, how: Rendering, pager: Pager,
          limit: nat, seen: nat) returns (next: nat)
    requires SeenUpTo(q, events, how, pager, seen) && limit >= 1
    ensures
      var page := PageOf(Remaining(q.atOrAfter, events, q.filters, seen), limit);
      var pager' := Joined(pager, RenderPage(page, how));
      && SeenUpTo(q, events, how, pager', next)
      && (pager'.done ==> next == |events|)
  {
    next := PageMoves(q, events, limit, seen);
    var page := PageOf(Remaining(q.atOrAfter, events, q.filters, seen), limit);
    MapConcat(Filter(Numbered(events)[..seen], q.Test()), page.events, Rendered(how));
  }

  lemma {:induction false} OthersOnlyAppend(q: Query, w: World, op: Op)
    requires !(op.Flush? && op.agent == q.agent) && !op.ListEvents?
    ensures w.log.EventsOf(q.agent) <= LogAfter(q, w.runtime, w.log, op).EventsOf(q.agent)
    ensures LogAfter(q, w.runtime, w.log, op).agents == w.log.agents
  {
  }

  lemma {:induction false} GrowthKeepsSeen(q: Query, events: seq<MemoryEvent>, events': seq<MemoryEvent>,
          how: Rendering, how': Rendering, pager: Pager, seen: nat)
    requires events <= events' && SeenUpTo(q, events, how, pager, seen)
    requires how'.show == how.show && forall k :: 1 <= k <= |events| ==> how'.name(k) == how.name(k)
    ensures SeenUpTo(q, events', how', pager, seen)
  {
    var chosen := Filter(Numbered(events)[..seen], q.Test());
    assert Numbered(events')[..seen] == Numbered(events)[..seen];
    FilterMembers(Numbered(events)[..seen], q.Test());
    forall i | 0 <= i < |chosen|
      ensures Rendered(how')(chosen[i]) == Rendered(how)(chosen[i])
    {
      assert chosen[i] in chosen;
      assert chosen[i] in Numbered(events)[..seen];
    }
    assert Map(chosen, Rendered(how')) == Map(chosen, Rendered(how));
  }

  lemma {:induction false} OtherKeepsPlace(q: Query, w: World, op: Op)
    requires KeepsPlace(q, w) && Harmless(q, w.runtime, op)
    ensures KeepsPlace(q, World(LogAfter(q, w.runtime, w.log, op), After(q, w.runtime, op), w.pager))
  {
    var seen: nat :| StandsAt(q, w, seen);
    HarmlessKeeps(q, w.runtime, w.log, op);
    OthersOnlyAppend(q, w, op);
    var w' := World(LogAfter(q, w.runtime, w.log, op), After(q, w.runtime, op), w.pager);
    GrowthKeepsSeen(q, w.log.EventsOf(q.agent), w'.log.EventsOf(q.agent), w.How(q), w'.How(q), w.pager, seen);
    assert StandsAt(q, w', seen);
  }

  lemma {:induction false} NextKeepsPlace(q: Query, w: World, limit: nat)
    requires KeepsPlace(q, w) && limit >= 1 && !w.pager.done
    ensures KeepsPlace(q, w.(pager := Fetch(q, w.runtime, w.pager, limit)))
  {
    var seen: nat :| StandsAt(q, w, seen);
    var next := FetchKeepsPlace(q, w, limit, seen);
    assert StandsAt(q, w.(pager := Fetch(q, w.runtime, w.pager, limit)), next);
  }

  lemma {:induction false} RunKeepsPlace(q: Query, steps: seq<Step>, worlds: seq<World>, i: nat)
    requires IsRun(q, steps, worlds) && i < |worlds|
    ensures KeepsPlace(q, worlds[i])
  {
    if i == 0 {
      assert StandsAt(q, worlds[0], 0);
    } else {
      RunKeepsPlace(q, steps, worlds, i - 1);
      assert Takes(q, worlds[i - 1], steps[i - 1], worlds[i]);
      match steps[i - 1] {
        case Other(op) => OtherKeepsPlace(q, worlds[i - 1], op);
        case Next(limit) => NextKeepsPlace(q, worlds[i - 1], limit);
      }
    }
  }

  lemma {:induction false} PlaceIsPrefix(q: Query, w: World)
    requires KeepsPlace(q, w)
    ensures w.pager.collected <= q.Current(w.log.EventsOf(q.agent), w.How(q))
  {
    var seen: nat :| StandsAt(q, w, seen);
    SeenIsPrefix(q, w.log.EventsOf(q.agent), w.How(q), w.pager, seen);
  }

  lemma {:induction false} LastPageCompletes(q: Query, w: World, step: Step, w': World)
    requires KeepsPlace(q, w) && step.Next? && Takes(q, w, step, w')
    ensures w'.pager.done ==> w'.pager.collected == q.Current(w'.log.EventsOf(q.agent), w'.How(q))
  {
    var events := w.log.EventsOf(q.agent);
    var seen: nat :| StandsAt(q, w, seen);
    var next := FetchKeepsPlace(q, w, step.limit, seen);
    SeenIsPrefix(q, events, w.How(q), w'.pager, next);
  }

  lemma {:induction false} StepOfRun(q: Query, steps: seq<Step>, worlds: seq<World>, i: nat)
    requires IsRun(q, steps, worlds) && 0 < i < |worlds|
    ensures KeepsPlace(q, worlds[i - 1]) && Takes(q, worlds[i - 1], steps[i - 1], worlds[i])
  {
    RunKeepsPlace(q, steps, worlds, i - 1);
  }

  /** Complete and duplicate-free, in either runtime: at every moment of a walk the pages so far are
      a prefix of the filtered list as it stands, and when a page comes without a cursor, which ends
      the walk, they are all of it. */
  lemma {:induction false} PagingIsComplete(q: Query, steps: seq<Step>, worlds: seq<World>, i: nat)
    requires IsRun(q, steps, worlds) && i < |worlds|
    ensures worlds[i].pager.collected <= q.Current(worlds[i].log.EventsOf(q.agent), worlds[i].How(q))
    ensures i > 0 && steps[i - 1].Next? && worlds[i].pager.done ==>
              worlds[i].pager.collected == q.Current(worlds[i].log.EventsOf(q.agent), worlds[i].How(q))
  {
    RunKeepsPlace(q, steps, worlds, i);
    PlaceIsPrefix(q, worlds[i]);
    if i > 0 && steps[i - 1].Next? {
      StepOfRun(q, steps, worlds, i);
      LastPageCompletes(q, worlds[i - 1], steps[i - 1], worlds[i]);
    }
  }

  lemma {:induction false} SeenIsPrefix(q: Query, events: seq<MemoryEvent>, how: Rendering, pager: Pager, seen: nat)
    requires SeenUpTo(q, events, how, pager, seen)
    ensures pager.collected <= q.Current(events, how)
    ensures seen == |events| ==> pager.collected == q.Current(events, how)
  {
    var all := Numbered(events);
    FilterSplit(all, q.Test(), seen);
    MapConcat(Filter(all[..seen], q.Test()), Filter(all[seen..], q.Test()), Rendered(how));
    if seen == |events| {
      assert all[..seen] == all;
    }
  }

  /** How many events match at a moment. */
  function MatchCount(q: Query, w: World): nat {
    |q.Current(w.log.EventsOf(q.agent), w.How(q))|
  }

  /** `c` is the least number of pages, at least one, that can hold `n` events: max(1, ceil(n / limit)). */
  ghost predicate LeastPages(n: nat, limit: nat, c: nat) {
    c >= 1 && n <= c * limit && (c > 1 ==> (c - 1) * limit < n)
  }

  /** A call the runtime answers ends the walk exactly when what is left fits its page; otherwise it fills the page. */
  lemma {:induction false} OnePage(q: Query, w: World, limit: nat)
    requires KeepsPlace(q, w) && limit >= 1 && !w.pager.done && Answers(q, w.runtime)
    ensures
      var n, k := MatchCount(q, w), |w.pager.collected|;
      var pager := Fetch(q, w.runtime, w.pager, limit);
      && (pager.done <==> n <= k + limit)
      && (!pager.done ==> |pager.collected| == k + limit)
  {
    var events := w.log.EventsOf(q.agent);
    var seen: nat :| StandsAt(q, w, seen);
    FetchJoins(q, w, limit, seen);
    FilterSplit(Numbered(events), q.Test(), seen);
    JoinedSize(q, events, w.How(q), w.pager, limit, seen);
  }

  lemma {:induction false} JoinedSize(q: Query, events: seq<MemoryEvent>, how: Rendering, pager: Pager, limit: nat,
          seen: nat)
    requires limit >= 1 && seen <= |events|
    ensures
      var rest := Remaining(q.atOrAfter, events, q.filters, seen);
      var pager' := Joined(pager, RenderPage(PageOf(rest, limit), how));
      && (pager'.done <==> |rest| <= limit)
      && (!pager'.done ==> |pager'.collected| == |pager.collected| + limit)
  {
  }

  /** A walk with a fixed limit and nothing else going on is over exactly at its
      max(1, ceil(n / limit))-th call, for n matching events. */
  lemma {:induction false} WalkLength(q: Query, steps: seq<Step>, worlds: seq<World>, limit: nat, i: nat)
    requires IsRun(q, steps, worlds) && i < |worlds| && limit >= 1
    requires Answers(q, worlds[0].runtime) && forall j :: 0 <= j < |steps| ==> steps[j] == Next(limit)
    ensures worlds[i].log == worlds[0].log && worlds[i].runtime == worlds[0].runtime
    ensures worlds[i].pager.done <==> LeastPages(MatchCount(q, worlds[0]), limit, i)
    ensures !worlds[i].pager.done ==> Collected(q, worlds[i], limit, i)
  {
    if i > 0 {
      WalkLength(q, steps, worlds, limit, i - 1);
      StepOfRun(q, steps, worlds, i);
      OnePage(q, worlds[i - 1], limit);
      CallCount(MatchCount(q, worlds[0]), limit, i, |worlds[i - 1].pager.collected|);
    }
  }

  /** Full pages so far, and more to come. */
  ghost predicate Collected(q: Query, w: World, limit: nat, i: nat) {
    |w.pager.collected| == i * limit && (i > 0 ==> |w.pager.collected| < MatchCount(q, w))
  }

  lemma {:induction false} CallCount(n: nat, limit: nat, i: nat, k: nat)
    requires limit >= 1 && i >= 1 && k == (i - 1) * limit && (i > 1 ==> k < n)
    ensures k + limit == i * limit
    ensures n <= k + limit <==> LeastPages(n, limit, i)
  {
  }
}
