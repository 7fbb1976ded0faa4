/**
 The contract both agent runtimes answer to (the AgentRuntime protocol in
 agentcook/src/agentcook_app/services.py): per agent, one append-only list of events and one of
 soul configurations.  Events are named here by their position, counted from one; each runtime
 has its own names for them.
 */
module AgentRuntime {
  import opened Wrappers
  import opened Seqs

  datatype MemoryEvent = MemoryEvent(
    timestamp: string, kind: string, content: string, source: Option<string>, metadata: map<string, string>)

  datatype SoulConfig = SoulConfig(
    tone: string, languageStyle: string, values: seq<string>, customTraits: map<string, string>)

  datatype SoulVersion = SoulVersion(version: nat, config: SoulConfig)

  datatype Stored<Id> = Stored(id: Id, event: MemoryEvent)

  datatype Page<Id> = Page(events: seq<Stored<Id>>, nextCursor: Option<Id>)

  datatype FlushResult = FlushResult(deletedEventCount: nat, identityPreserved: bool, soulPreserved: bool)

  datatype Error =
    | AgentNotFound(agent: string)
    | SoulNotInitialized(agent: string)
    | IndexOutOfRange
    | BadTimestamp(text: string)

  datatype Filters = Filters(since: Option<string>, kind: Option<string>)

  /** Whether an event passes the filters; how timestamps compare is a parameter, because one
      runtime compares their text and the other the instants they denote. */
  predicate Matches(atOrAfter: (string, string) -> bool, filters: Filters, event: MemoryEvent) {
    && (filters.since.Some? ==> atOrAfter(event.timestamp, filters.since.value))
    && (filters.kind.Some? ==> event.kind == filters.kind.value)
  }

  function Matching<Id>(atOrAfter: (string, string) -> bool, filters: Filters): Stored<Id> -> bool {
    (s: Stored<Id>) => Matches(atOrAfter, filters, s.event)
  }

  /** The first `limit` of the remaining events, and a cursor when there are more. */
  function PageOf<Id>(rest: seq<Stored<Id>>, limit: nat): Page<Id>
    requires limit >= 1 || rest == []
  {
    Page(Take(rest, limit), if |rest| > limit then Some(rest[limit - 1].id) else None)
  }

  // ---- the plain log -----------------------------------------------------------------------

  /** An agent without an entry has nothing yet. */
  function Entries<T>(lists: map<string, seq<T>>, agent: string): seq<T> {
    if agent in lists then lists[agent] else []
  }

  datatype Log = Log(agents: set<string>, events: map<string, seq<MemoryEvent>>, souls: map<string, seq<SoulConfig>>) {
    function EventsOf(agent: string): seq<MemoryEvent> {
      Entries(events, agent)
    }

    function SoulsOf(agent: string): seq<SoulConfig> {
      Entries(souls, agent)
    }
  }

  function Numbered(events: seq<MemoryEvent>): (r: seq<Stored<nat>>)
    ensures |r| == |events|
    ensures forall i :: 0 <= i < |r| ==> r[i] == Stored(i + 1, events[i])
  {
    seq(|events|, i requires 0 <= i < |events| => Stored(i + 1, events[i]))
  }

  /** The events after the first `after` ones that pass the filters. */
  function Remaining(atOrAfter: (string, string) -> bool, events: seq<MemoryEvent>, filters: Filters, after: nat)
    : seq<Stored<nat>>
    requires after <= |events|
  {
    Filter(Numbered(events)[after..], Matching(atOrAfter, filters))
  }

  // ---- operations ---------------------------------------------------------------------------

  /** One client request.  `after` is the position of the event a cursor names, zero for none;
      `serial` is the value the database sequence would supply. */
  datatype Op =
    | AppendEvent(agent: string, event: MemoryEvent, serial: nat)
    | ListEvents(agent: string, filters: Filters, limit: nat, after: nat)
    | Flush(agent: string, preserve: bool)
    | AppendSoul(agent: string, config: SoulConfig)
    | LatestSoul(agent: string)

  datatype Reply<Id> =
    | EventReply(stored: Stored<Id>)
    | PageReply(page: Page<Id>)
    | FlushReply(flushed: FlushResult)
    | SoulReply(soul: SoulVersion)
    | Failed(error: Error)

  function LogStep(atOrAfter: (string, string) -> bool, log: Log, op: Op): (Log, Reply<nat>)
    requires op.ListEvents? && op.agent in log.agents ==> op.after <= |log.EventsOf(op.agent)| && op.limit >= 1
  {
    if op.agent !in log.agents then (log, Failed(AgentNotFound(op.agent))) else
    var events, souls := log.EventsOf(op.agent), log.SoulsOf(op.agent);
    match op
    case AppendEvent(agent, event, _) =>
      (log.(events := log.events[agent := events + [event]]), EventReply(Stored(|events| + 1, event)))
    case ListEvents(agent, filters, limit, after) =>
      (log, PageReply(PageOf(Remaining(atOrAfter, events, filters, after), limit)))
    case Flush(agent, preserve) =>
      (Log(log.agents, log.events - {agent}, if preserve then log.souls else log.souls - {agent}),
       FlushReply(FlushResult(|events|, true, preserve)))
    case AppendSoul(agent, config) =>
      (log.(souls := log.souls[agent := souls + [config]]), SoulReply(SoulVersion(|souls| + 1, config)))
    case LatestSoul(agent) =>
      (log, if souls == [] then Failed(SoulNotInitialized(agent))
            else SoulReply(SoulVersion(|souls|, souls[|souls| - 1])))
  }

  /** What a runtime makes of a logged event in a page: its name for the position, and how it shows
      the event. */
  datatype Rendering = Rendering(name: nat -> string, show: MemoryEvent -> MemoryEvent)

  function Verbatim(): MemoryEvent -> MemoryEvent {
    (event: MemoryEvent) => event
  }

  function Rendered(how: Rendering): Stored<nat> -> Stored<string> {
    (s: Stored<nat>) => Stored(how.name(s.id), how.show(s.event))
  }

  /** The log's reply as a runtime gives it.  An append echoes the event it was sent. */
  function Render(reply: Reply<nat>, how: Rendering): Reply<string> {
    match reply
    case EventReply(stored) => EventReply(Stored(how.name(stored.id), stored.event))
    case PageReply(page) => PageReply(RenderPage(page, how))
    case FlushReply(flushed) => FlushReply(flushed)
    case SoulReply(soul) => SoulReply(soul)
    case Failed(error) => Failed(error)
  }

  function RenderPage(page: Page<nat>, how: Rendering): Page<string> {
    Page(Map(page.events, Rendered(how)), if page.nextCursor.Some? then Some(how.name(page.nextCursor.value)) else None)
  }

  /** Cutting a page commutes with rendering. */
  lemma {:induction false} PageOfRendered(rest: seq<Stored<nat>>, limit: nat, how: Rendering)
    requires limit >= 1
    ensures PageOf(Map(rest, Rendered(how)), limit) == RenderPage(PageOf(rest, limit), how)
  {
    assert Take(Map(rest, Rendered(how)), limit) == Map(Take(rest, limit), Rendered(how));
  }
}
