/**
 The process-local runtime (InMemoryAgentRuntime in agentcook/src/agentcook_app/services.py):
 one list of stored events, one sequence counter and one list of soul versions per agent.
 */
module InMemoryRuntime {
  import opened Wrappers
  import opened Seqs
  import opened AgentRuntime
  import EventIds

  datatype State = State(
    agents: set<string>,
    souls: map<string, seq<SoulVersion>>,
    events: map<string, seq<Stored<string>>>,
    eventSeq: map<string, nat>)
  {
    function EventsOf(agent: string): seq<Stored<string>> {
      Entries(events, agent)
    }

    function SoulsOf(agent: string): seq<SoulVersion> {
      Entries(souls, agent)
    }
  }

  /** The counter of an agent without one stands at zero. */
  function SeqOf(eventSeq: map<string, nat>, agent: string): nat {
    if agent in eventSeq then eventSeq[agent] else 0
  }

  // ---- what the methods compute --------------------------------------------------------------

  /** What follows the first item the cursor names; nothing when it names none. */
  function AfterCursor(items: seq<Stored<string>>, cursor: string): seq<Stored<string>> {
    if items == [] then []
    else if items[0].id == cursor then items[1..]
    else AfterCursor(items[1..], cursor)
  }

  /** Listing: filter, skip to the cursor, cut a page.  `page[-1]` of an empty page raises, which
      needs a limit of zero with events left over. */
  function Listing(atOrAfter: (string, string) -> bool, s: State, agent: string, filters: Filters, limit: nat,
          cursor: Option<string>): Result<Page<string>, Error>
  {
    if agent !in s.agents then Failure(AgentNotFound(agent)) else
    var items := Filter(s.EventsOf(agent), Matching(atOrAfter, filters));
    var rest := if cursor.Some? then AfterCursor(items, cursor.value) else items;
    if limit == 0 && rest != [] then Failure(IndexOutOfRange) else Success(PageOf(rest, limit))
  }

  /** `history[-limit:]`: the newest `limit` versions, but all of them for a limit of zero. */
  function SoulHistory(s: State, agent: string, limit: nat): Result<seq<SoulVersion>, Error> {
    if agent !in s.agents then Failure(AgentNotFound(agent))
    else Success(if limit == 0 then s.SoulsOf(agent) else Last(s.SoulsOf(agent), limit))
  }

  /** A listing fails for an unknown agent, and for a limit of zero if there is anything to list. */
  lemma {:induction false} ListingFailsIff(atOrAfter: (string, string) -> bool, s: State, agent: string,
          filters: Filters, limit: nat, cursor: Option<string>)
    ensures
      var page := Listing(atOrAfter, s, agent, filters, limit, cursor);
      var matching := Filter(s.EventsOf(agent), Matching(atOrAfter, filters));
      && (agent !in s.agents <==> page == Failure(AgentNotFound(agent)))
      && (page.Failure? && agent in s.agents <==>
            && agent in s.agents && limit == 0
            && matching != [] && (cursor.Some? ==> AfterCursor(matching, cursor.value) != []))
      && (page.Failure? && agent in s.agents ==> page.error == IndexOutOfRange)
  {
  }

  function Step(atOrAfter: (string, string) -> bool, s: State, op: Op): (State, Reply<string>) {
    if op.agent !in s.agents then (s, Failed(AgentNotFound(op.agent))) else
    match op
    case AppendEvent(agent, event, _) =>
      var n := SeqOf(s.eventSeq, agent) + 1;
      var stored := Stored(EventIds.Show(n), event);
      (s.(eventSeq := s.eventSeq[agent := n], events := s.events[agent := s.EventsOf(agent) + [stored]]),
       EventReply(stored))
    case ListEvents(agent, filters, limit, after) =>
      var cursor := if after == 0 then None else Some(EventIds.Show(after));
      (s, match Listing(atOrAfter, s, agent, filters, limit, cursor)
          case Success(page) => PageReply(page)
          case Failure(error) => Failed(error))
    case Flush(agent, preserve) =>
      (State(s.agents, if preserve then s.souls else s.souls - {agent}, s.events - {agent}, s.eventSeq - {agent}),
       FlushReply(FlushResult(|s.EventsOf(agent)|, true, preserve)))
    case AppendSoul(agent, config) =>
      var soul := SoulVersion(|s.SoulsOf(agent)| + 1, config);
      (s.(souls := s.souls[agent := s.SoulsOf(agent) + [soul]]), SoulReply(soul))
    case LatestSoul(agent) =>
      var history := s.SoulsOf(agent);
      (s, if history == [] then Failed(SoulNotInitialized(agent)) else SoulReply(history[|history| - 1]))
  }

  // ---- the runtime ---------------------------------------------------------------------------

  class Runtime {
    var agents: set<string>
    var souls: map<string, seq<SoulVersion>>
    var events: map<string, seq<Stored<string>>>
    var eventSeq: map<string, nat>

    /** `s.event.timestamp >= since`, a comparison of strings. */
    const atOrAfter: (string, string) -> bool

    function View(): State
      reads this
    {
      State(agents, souls, events, eventSeq)
    }

    constructor (atOrAfter: (string, string) -> bool)
      ensures View() == State({}, map[], map[], map[]) && this.atOrAfter == atOrAfter
    {
      agents, souls, events, eventSeq := {}, map[], map[], map[];
      this.atOrAfter := atOrAfter;
    }

    /** Registers an agent; a name that is taken is refused. */
    method SeedAgent(agent: string) returns (ok: bool)
      modifies this
      ensures ok == (agent !in old(agents))
      ensures View() == if ok then old(View()).(agents := old(agents) + {agent}) else old(View())
    {
      if agent in agents {
        return false;
      }
      agents := agents + {agent};
      return true;
    }

    method AppendSoul(agent: string, config: SoulConfig) returns (r: Reply<string>)
      modifies this
      ensures (View(), r) == Step(atOrAfter, old(View()), Op.AppendSoul(agent, config))
    {
      if agent !in agents {
        return Failed(AgentNotFound(agent));
      }
      if agent !in souls {
        souls := souls[agent := []];
      }
      var history := souls[agent];
      var version := SoulVersion(|history| + 1, config);
      souls := souls[agent := history + [version]];
      assert souls == old(souls)[agent := history + [version]];
      return SoulReply(version);
    }

    method GetSoulLatest(agent: string) returns (r: Reply<string>)
      ensures (View(), r) == Step(atOrAfter, View(), LatestSoul(agent))
    {
      if agent !in agents {
        return Failed(AgentNotFound(agent));
      }
      if agent !in souls || souls[agent] == [] {
        return Failed(SoulNotInitialized(agent));
      }
      return SoulReply(souls[agent][|souls[agent]| - 1]);
    }

    method AppendMemoryEvent(agent: string, event: MemoryEvent, ghost serial: nat) returns (r: Reply<string>)
      modifies this
      ensures (View(), r) == Step(atOrAfter, old(View()), AppendEvent(agent, event, serial))
    {
      if agent !in agents {
        return Failed(AgentNotFound(agent));
      }
      var n := (if agent in eventSeq then eventSeq[agent] else 0) + 1;
      eventSeq := eventSeq[agent := n];
      var stored := Stored(EventIds.Show(n), event);
      if agent !in events {
        events := events[agent := []];
      }
      events := events[agent := events[agent] + [stored]];
      assert events == old(events)[agent := old(View()).EventsOf(agent) + [stored]];
      return EventReply(stored);
    }

    method ListMemoryEvents(agent: string, filters: Filters, limit: nat, cursor: Option<string>)
      returns (r: Result<Page<string>, Error>)
      ensures r == Listing(atOrAfter, View(), agent, filters, limit, cursor)
    {
      if agent !in agents {
        return Failure(AgentNotFound(agent));
      }
      var items := if agent in events then events[agent] else [];
      items := Narrow(items, filters);
      if cursor.Some? {
        items := SkipPast(items, cursor.value);
      }
      if limit == 0 && items != [] {
        return Failure(IndexOutOfRange);
      }
      var page := CutPage(items, limit);
      return Success(page);
    }

    /** `items[:limit]`, and the id of its last entry when there are more. */
    static method CutPage(items: seq<Stored<string>>, limit: nat) returns (r: Page<string>)
      requires limit >= 1 || items == []
      ensures r == PageOf(items, limit)
    {
      var page := Take(items, limit);
      var nextCursor := if |items| > limit then Some(page[|page| - 1].id) else None;
      return Page(page, nextCursor);
    }

    /** The filters narrow the list one after the other. */
    method Narrow(all: seq<Stored<string>>, filters: Filters) returns (items: seq<Stored<string>>)
      ensures items == Filter(all, Matching(atOrAfter, filters))
    {
      items := all;
      if filters.since.Some? {
        items := Filter(items, Since(atOrAfter, filters.since.value));
      }
      if filters.kind.Some? {
        items := Filter(items, OfKind(filters.kind.value));
      }
      NarrowedIsFiltered(atOrAfter, filters, all);
    }

    /** The search for the cursor: `items[idx + 1:]` on a hit, nothing when the search ends. */
    static method SkipPast(items: seq<Stored<string>>, cursor: string) returns (rest: seq<Stored<string>>)
      ensures rest == AfterCursor(items, cursor)
    {
      for idx := 0 to |items|
        invariant AfterCursor(items, cursor) == AfterCursor(items[idx..], cursor)
      {
        if items[idx].id == cursor {
          assert items[idx..][1..] == items[idx + 1..];
          return items[idx + 1..];
        }
        assert items[idx..][1..] == items[idx + 1..];
      }
      return [];
    }

    method ListSoulHistory(agent: string, limit: nat) returns (r: Result<seq<SoulVersion>, Error>)
      ensures r == SoulHistory(View(), agent, limit)
    {
      if agent !in agents {
        return Failure(AgentNotFound(agent));
      }
      var history := if agent in souls then souls[agent] else [];
      var start := if limit == 0 then 0 else Max(0, |history| - limit);
      return Success(history[start..]);
    }

    method FlushMemory(agent: string, preserve: bool) returns (r: Reply<string>)
      modifies this
      ensures (View(), r) == Step(atOrAfter, old(View()), Flush(agent, preserve))
    {
      if agent !in agents {
        return Failed(AgentNotFound(agent));
      }
      var count := if agent in events then |events[agent]| else 0;
      events := events - {agent};
      eventSeq := eventSeq - {agent};
      if !preserve {
        souls := souls - {agent};
      }
      return FlushReply(FlushResult(count, true, preserve));
    }
  }

  function Since(atOrAfter: (string, string) -> bool, since: string): Stored<string> -> bool {
    (s: Stored<string>) => atOrAfter(s.event.timestamp, since)
  }

  function OfKind(kind: string): Stored<string> -> bool {
    (s: Stored<string>) => s.event.kind == kind
  }

  /** Narrowing step by step is filtering once. */
  lemma {:induction false} NarrowedIsFiltered(atOrAfter: (string, string) -> bool, filters: Filters,
          items: seq<Stored<string>>)
    ensures
      var bySince := if filters.since.Some? then Filter(items, Since(atOrAfter, filters.since.value)) else items;
      var byKind := if filters.kind.Some? then Filter(bySince, OfKind(filters.kind.value)) else bySince;
      byKind == Filter(items, Matching(atOrAfter, filters))
  {
    var matching := Matching<string>(atOrAfter, filters);
    match (filters.since, filters.kind) {
      case (None, None) => FilterAll(items, matching);
      case (Some(since), None) => FilterAgrees(items, Since(atOrAfter, since), matching);
      case (None, Some(kind)) => FilterAgrees(items, OfKind(kind), matching);
      case (Some(since), Some(kind)) => FilterTwice(items, Since(atOrAfter, since), OfKind(kind), matching);
    }
  }

  // ---- refinement of the plain log -----------------------------------------------------------

  /** This runtime calls the i-th event `evt_i` and shows it as it was sent. */
  function AsStored(): Rendering {
    Rendering((i: nat) => EventIds.Show(i), Verbatim())
  }

  function Versions(configs: seq<SoulConfig>): seq<SoulVersion> {
    seq(|configs|, i requires 0 <= i < |configs| => SoulVersion(i + 1, configs[i]))
  }

  /** The i-th event of an agent carries the id i, the counter is the number of events, and soul
      versions are numbered from one without gaps. */
  ghost predicate Represents(s: State, log: Log) {
    && s.agents == log.agents
    && EventsRepresent(s.events, s.eventSeq, log.events)
    && SoulsRepresent(s.souls, log.souls)
  }

  ghost predicate EventsRepresent(stored: map<string, seq<Stored<string>>>, eventSeq: map<string, nat>,
          events: map<string, seq<MemoryEvent>>)
  {
    forall a :: Numbering(Entries(stored, a), SeqOf(eventSeq, a), Entries(events, a))
  }

  predicate Numbering(stored: seq<Stored<string>>, n: nat, events: seq<MemoryEvent>) {
    stored == Map(Numbered(events), Rendered(AsStored())) && n == |events|
  }

  ghost predicate SoulsRepresent(souls: map<string, seq<SoulVersion>>, configs: map<string, seq<SoulConfig>>) {
    forall a :: Entries(souls, a) == Versions(Entries(configs, a))
  }

  /** Filtering commutes with rendering, which leaves the events themselves alone. */
  lemma {:induction false} FilterRendered(atOrAfter: (string, string) -> bool, filters: Filters,
          items: seq<Stored<nat>>)
    ensures Filter(Map(items, Rendered(AsStored())), Matching(atOrAfter, filters))
         == Map(Filter(items, Matching(atOrAfter, filters)), Rendered(AsStored()))
  {
    var id := (s: Stored<string>) => s;
    var p, stored := Matching<string>(atOrAfter, filters), Map(items, Rendered(AsStored()));
    FilterAlongside(stored, items, p, Matching(atOrAfter, filters), id, Rendered(AsStored()));
    assert Map(Filter(stored, p), id) == Filter(stored, p);
  }

  lemma {:induction false} AfterCursorSplits(a: seq<Stored<string>>, x: Stored<string>, b: seq<Stored<string>>)
    requires forall i :: 0 <= i < |a| ==> a[i].id != x.id
    ensures AfterCursor(a + [x] + b, x.id) == b
  {
    var items := a + [x] + b;
    if a == [] {
      assert items[1..] == b;
    } else {
      assert items[1..] == a[1..] + [x] + b;
      AfterCursorSplits(a[1..], x, b);
    }
  }

  /** What passes the filters is what passes before an event, the event, and what passes behind. */
  lemma {:induction false} FilterAround(atOrAfter: (string, string) -> bool, events: seq<MemoryEvent>, filters: Filters,
          after: nat)
    requires 1 <= after <= |events| && Matches(atOrAfter, filters, events[after - 1])
    ensures
      var p, all := Matching<nat>(atOrAfter, filters), Numbered(events);
      Filter(all, p) == Filter(all[..after - 1], p) + [all[after - 1]] + Remaining(atOrAfter, events, filters, after)
  {
    var p, all := Matching<nat>(atOrAfter, filters), Numbered(events);
    FilterSplit(all, p, after);
    FilterSnoc(all, after - 1, p);
  }

  /** The cursor finds its place among the filtered events when its own event passes the
      filters. */
  lemma {:induction false} CursorFindsItsPlace(atOrAfter: (string, string) -> bool, events: seq<MemoryEvent>,
          filters: Filters, after: nat)
    requires 1 <= after <= |events| && Matches(atOrAfter, filters, events[after - 1])
    ensures AfterCursor(Filter(Map(Numbered(events), Rendered(AsStored())), Matching(atOrAfter, filters)),
             EventIds.Show(after))
         == Map(Remaining(atOrAfter, events, filters, after), Rendered(AsStored()))
  {
    var p, all := Matching<nat>(atOrAfter, filters), Numbered(events);
    var early, late := Filter(all[..after - 1], p), Remaining(atOrAfter, events, filters, after);
    FilterRendered(atOrAfter, filters, all);
    FilterAround(atOrAfter, events, filters, after);
    forall i | 0 <= i < |early|
      ensures early[i].id < after
    {
      FilterMembers(all[..after - 1], p);
      assert early[i] in early;
    }
    CursorBehind(early, all[after - 1], late, after);
  }

  lemma {:induction false} CursorBehind(early: seq<Stored<nat>>, x: Stored<nat>, late: seq<Stored<nat>>, after: nat)
    requires x.id == after && forall i :: 0 <= i < |early| ==> early[i].id < after
    ensures AfterCursor(Map(early + [x] + late, Rendered(AsStored())), EventIds.Show(after))
         == Map(late, Rendered(AsStored()))
  {
    var before, y := Map(early, Rendered(AsStored())), Rendered(AsStored())(x);
    assert Map(early + [x] + late, Rendered(AsStored())) == before + [y] + Map(late, Rendered(AsStored()));
    forall i | 0 <= i < |before|
      ensures before[i].id != y.id
    {
      EventIds.ShowInjective(early[i].id, after);
    }
    AfterCursorSplits(before, y, Map(late, Rendered(AsStored())));
  }

  /** When it does not, the runtime returns an empty page. */
  lemma {:induction false} CursorIsLost(atOrAfter: (string, string) -> bool, events: seq<MemoryEvent>, filters: Filters,
          after: nat)
    requires 1 <= after <= |events| && !Matches(atOrAfter, filters, events[after - 1])
    ensures AfterCursor(Filter(Map(Numbered(events), Rendered(AsStored())), Matching(atOrAfter, filters)),
             EventIds.Show(after))
         == []
  {
    var p := Matching<nat>(atOrAfter, filters);
    FilterRendered(atOrAfter, filters, Numbered(events));
    var items := Filter(Numbered(events), p);
    FilterMembers(Numbered(events), p);
    forall i | 0 <= i < |items|
      ensures Rendered(AsStored())(items[i]).id != EventIds.Show(after)
    {
      assert items[i] in items;
      EventIds.ShowInjective(items[i].id, after);
    }
    AbsentCursor(Map(items, Rendered(AsStored())), EventIds.Show(after));
  }

  lemma {:induction false} AbsentCursor(items: seq<Stored<string>>, cursor: string)
    requires forall i :: 0 <= i < |items| ==> items[i].id != cursor
    ensures AfterCursor(items, cursor) == []
  {
    if items != [] {
      AbsentCursor(items[1..], cursor);
    }
  }

  lemma {:induction false} AppendRendered(events: seq<MemoryEvent>, event: MemoryEvent)
    ensures Map(Numbered(events + [event]), Rendered(AsStored()))
         == Map(Numbered(events), Rendered(AsStored())) + [Stored(EventIds.Show(|events| + 1), event)]
  {
  }

  lemma {:induction false} AppendRepresents(stored: map<string, seq<Stored<string>>>, eventSeq: map<string, nat>,
          events: map<string, seq<MemoryEvent>>, agent: string, event: MemoryEvent)
    requires EventsRepresent(stored, eventSeq, events)
    ensures
      var n := SeqOf(eventSeq, agent) + 1;
      EventsRepresent(stored[agent := Entries(stored, agent) + [Stored(EventIds.Show(n), event)]],
                      eventSeq[agent := n], events[agent := Entries(events, agent) + [event]])
  {
    var n := SeqOf(eventSeq, agent) + 1;
    var stored' := stored[agent := Entries(stored, agent) + [Stored(EventIds.Show(n), event)]];
    var eventSeq', events' := eventSeq[agent := n], events[agent := Entries(events, agent) + [event]];
    forall a
      ensures Numbering(Entries(stored', a), SeqOf(eventSeq', a), Entries(events', a))
    {
      assert Numbering(Entries(stored, a), SeqOf(eventSeq, a), Entries(events, a));
      AppendRendered(Entries(events, a), event);
    }
  }

  lemma {:induction false} DeleteRepresents(stored: map<string, seq<Stored<string>>>, eventSeq: map<string, nat>,
          events: map<string, seq<MemoryEvent>>, agent: string)
    requires EventsRepresent(stored, eventSeq, events)
    ensures EventsRepresent(stored - {agent}, eventSeq - {agent}, events - {agent})
  {
    forall a
      ensures Numbering(Entries(stored - {agent}, a), SeqOf(eventSeq - {agent}, a), Entries(events - {agent}, a))
    {
      assert Numbering(Entries(stored, a), SeqOf(eventSeq, a), Entries(events, a));
      assert Numbering([], 0, []);
    }
  }

  lemma {:induction false} AppendSoulRepresents(souls: map<string, seq<SoulVersion>>,
          configs: map<string, seq<SoulConfig>>, agent: string, config: SoulConfig)
    requires SoulsRepresent(souls, configs)
    ensures
      var n := |Entries(souls, agent)| + 1;
      SoulsRepresent(souls[agent := Entries(souls, agent) + [SoulVersion(n, config)]],
                     configs[agent := Entries(configs, agent) + [config]])
  {
    var souls' := souls[agent := Entries(souls, agent) + [SoulVersion(|Entries(souls, agent)| + 1, config)]];
    var configs' := configs[agent := Entries(configs, agent) + [config]];
    forall a
      ensures Entries(souls', a) == Versions(Entries(configs', a))
    {
      assert Entries(souls, a) == Versions(Entries(configs, a));
      assert Versions(Entries(configs, a) + [config])
          == Versions(Entries(configs, a)) + [SoulVersion(|Entries(configs, a)| + 1, config)];
    }
  }

  lemma {:induction false} DeleteSoulsRepresents(souls: map<string, seq<SoulVersion>>,
          configs: map<string, seq<SoulConfig>>, agent: string)
    requires SoulsRepresent(souls, configs)
    ensures SoulsRepresent(souls - {agent}, configs - {agent})
  {
    forall a
      ensures Entries(souls - {agent}, a) == Versions(Entries(configs - {agent}, a))
    {
      assert Entries(souls, a) == Versions(Entries(configs, a));
    }
  }

  lemma {:induction false} ListingRefinesLog(atOrAfter: (string, string) -> bool, s: State, log: Log, agent: string,
          filters: Filters, limit: nat, after: nat)
    requires Represents(s, log) && agent in log.agents
    requires limit >= 1 && after <= |log.EventsOf(agent)|
    requires after >= 1 ==> Matches(atOrAfter, filters, log.EventsOf(agent)[after - 1])
    ensures Listing(atOrAfter, s, agent, filters, limit, if after == 0 then None else Some(EventIds.Show(after)))
         == Success(RenderPage(PageOf(Remaining(atOrAfter, log.EventsOf(agent), filters, after), limit), AsStored()))
  {
    var events := log.EventsOf(agent);
    PageOfRendered(Remaining(atOrAfter, events, filters, after), limit, AsStored());
    if after == 0 {
      assert Numbered(events)[0..] == Numbered(events);
      FilterRendered(atOrAfter, filters, Numbered(events));
    } else {
      CursorFindsItsPlace(atOrAfter, events, filters, after);
    }
  }

  lemma {:induction false} AppendEventRefinesLog(atOrAfter: (string, string) -> bool, s: State, log: Log, op: Op)
    requires Represents(s, log) && op.AppendEvent? && op.agent in s.agents
    ensures Represents(Step(atOrAfter, s, op).0, LogStep(atOrAfter, log, op).0)
    ensures Step(atOrAfter, s, op).1 == Render(LogStep(atOrAfter, log, op).1, AsStored())
  {
    assert Numbering(s.EventsOf(op.agent), SeqOf(s.eventSeq, op.agent), log.EventsOf(op.agent));
    AppendRepresents(s.events, s.eventSeq, log.events, op.agent, op.event);
  }

  lemma {:induction false} FlushRefinesLog(atOrAfter: (string, string) -> bool, s: State, log: Log, op: Op)
    requires Represents(s, log) && op.Flush? && op.agent in s.agents
    ensures Represents(Step(atOrAfter, s, op).0, LogStep(atOrAfter, log, op).0)
    ensures Step(atOrAfter, s, op).1 == Render(LogStep(atOrAfter, log, op).1, AsStored())
  {
    assert Numbering(s.EventsOf(op.agent), SeqOf(s.eventSeq, op.agent), log.EventsOf(op.agent));
    DeleteRepresents(s.events, s.eventSeq, log.events, op.agent);
    DeleteSoulsRepresents(s.souls, log.souls, op.agent);
  }

  lemma {:induction false} SoulsRefineLog(atOrAfter: (string, string) -> bool, s: State, log: Log, op: Op)
    requires Represents(s, log) && (op.AppendSoul? || op.LatestSoul?) && op.agent in s.agents
    ensures Represents(Step(atOrAfter, s, op).0, LogStep(atOrAfter, log, op).0)
    ensures Step(atOrAfter, s, op).1 == Render(LogStep(atOrAfter, log, op).1, AsStored())
  {
    assert s.SoulsOf(op.agent) == Versions(log.SoulsOf(op.agent));
    if op.AppendSoul? {
      AppendSoulRepresents(s.souls, log.souls, op.agent, op.config);
    }
  }

  /** Every request leaves the runtime representing the log, and answers as the log does, under
      this runtime's names.  A cursor must name an event that passes the filters it is used
      with. */
  lemma {:induction false} StepRefinesLog(atOrAfter: (string, string) -> bool, s: State, log: Log, op: Op)
    requires Represents(s, log)
    requires op.ListEvents? && op.agent in log.agents ==>
      && op.limit >= 1 && op.after <= |log.EventsOf(op.agent)|
      && (op.after >= 1 ==> Matches(atOrAfter, op.filters, log.EventsOf(op.agent)[op.after - 1]))
    ensures Represents(Step(atOrAfter, s, op).0, LogStep(atOrAfter, log, op).0)
    ensures Step(atOrAfter, s, op).1 == Render(LogStep(atOrAfter, log, op).1, AsStored())
  {
    if op.agent in s.agents {
      match op {
        case AppendEvent(_, _, _) => AppendEventRefinesLog(atOrAfter, s, log, op);
        case ListEvents(agent, filters, limit, after) =>
          ListingRefinesLog(atOrAfter, s, log, agent, filters, limit, after);
        case Flush(_, _) => FlushRefinesLog(atOrAfter, s, log, op);
        case AppendSoul(_, _) => SoulsRefineLog(atOrAfter, s, log, op);
        case LatestSoul(_) => SoulsRefineLog(atOrAfter, s, log, op);
      }
    }
  }
}
