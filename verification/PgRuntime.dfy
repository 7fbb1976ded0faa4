/**
 The Postgres runtime (PgAgentRuntime in agentcook/src/agentcook_app/runtime_pg.py) at the level
 of its tables.  Each SELECT is a filter, an ORDER BY and a LIMIT over rows; the serial column of
 `memory_events` is shared by all agents and may skip values.  Timestamps are parsed before a
 statement is sent, which raises on text that cannot be read, and printed anew when read back.
 */
module PgRuntime {
  import opened Wrappers
  import opened Seqs
  import opened StableSort
  import opened AgentRuntime
  import Decimal
  import EventIds
  import opened Timestamps

  /** The columns of an event: its timestamp column holds an instant, not the text that was sent. */
  datatype Entry = Entry(at: int, kind: string, content: string, source: Option<string>, metadata: map<string, string>)

  datatype EventRow = EventRow(id: nat, agent: string, entry: Entry)

  datatype SoulRow = SoulRow(agent: string, version: nat, config: SoulConfig)

  datatype State = State(agents: set<string>, eventRows: seq<EventRow>, soulRows: seq<SoulRow>, nextSerial: nat) {
    function RowsOf(agent: string): seq<EventRow> {
      Filter(eventRows, OfAgent(agent))
    }

    function SoulsOf(agent: string): seq<SoulRow> {
      Filter(soulRows, SoulOfAgent(agent))
    }
  }

  // ---- WHERE and ORDER BY ------------------------------------------------------------------

  function OfAgent(agent: string): EventRow -> bool {
    (r: EventRow) => r.agent == agent
  }

  function NotOfAgent(agent: string): EventRow -> bool {
    (r: EventRow) => r.agent != agent
  }

  function SoulNotOfAgent(agent: string): SoulRow -> bool {
    (r: SoulRow) => r.agent != agent
  }

  function SoulOfAgent(agent: string): SoulRow -> bool {
    (r: SoulRow) => r.agent == agent
  }

  /** One optional WHERE clause per filter, joined by AND. */
  function Where(clock: Clock, agent: string, filters: Filters, cursor: Option<int>): EventRow -> bool {
    (r: EventRow) =>
      && r.agent == agent
      && (filters.since.Some? ==> r.entry.at >= clock.At(filters.since.value))
      && (filters.kind.Some? ==> r.entry.kind == filters.kind.value)
      && (cursor.Some? ==> r.id > cursor.value)
  }

  function ById(): (EventRow, EventRow) -> bool {
    (r: EventRow, r': EventRow) => r.id <= r'.id
  }

  function ByVersion(): (SoulRow, SoulRow) -> bool {
    (r: SoulRow, r': SoulRow) => r.version <= r'.version
  }

  /** ORDER BY id DESC LIMIT 1 over a non-empty selection. */
  function NewestRow(rows: seq<EventRow>): EventRow
    requires rows != []
  {
    if |rows| == 1 then rows[0] else
      var newest := NewestRow(rows[1..]);
      if rows[0].id > newest.id then rows[0] else newest
  }

  /** ORDER BY version DESC LIMIT 1, which also carries MAX(version). */
  function LatestRow(rows: seq<SoulRow>): SoulRow
    requires rows != []
  {
    if |rows| == 1 then rows[0] else
      var latest := LatestRow(rows[1..]);
      if rows[0].version > latest.version then rows[0] else latest
  }

  /** What the INSERT writes, for a timestamp that can be read. */
  function Encode(clock: Clock): MemoryEvent -> Entry {
    (e: MemoryEvent) => Entry(clock.At(e.timestamp), e.kind, e.content, e.source, e.metadata)
  }

  /** What the SELECT builds from the columns. */
  function Decode(clock: Clock): Entry -> MemoryEvent {
    (e: Entry) => MemoryEvent(clock.show(e.at), e.kind, e.content, e.source, e.metadata)
  }

  function ToStored(clock: Clock): EventRow -> Stored<string> {
    (r: EventRow) => Stored(EventIds.Show(r.id), Decode(clock)(r.entry))
  }

  function ToVersion(): SoulRow -> SoulVersion {
    (r: SoulRow) => SoulVersion(r.version, r.config)
  }

  // ---- what the methods compute --------------------------------------------------------------

  /** Python's `int` on the cursor text, None when it raises. */
  function CursorId(toInt: string -> Option<int>, cursor: string): Option<int> {
    toInt(EventIds.RemovePrefix(cursor))
  }

  function Listing(clock: Clock, toInt: string -> Option<int>, s: State, agent: string, filters: Filters, limit: nat,
          cursor: Option<string>): Result<Page<string>, Error>
  {
    if agent !in s.agents then Failure(AgentNotFound(agent)) else
    if filters.since.Some? && !clock.Reads(filters.since.value) then Failure(BadTimestamp(filters.since.value)) else
    if cursor.Some? && CursorId(toInt, cursor.value).None? then Failure(AgentNotFound(agent)) else
    var after := if cursor.Some? then CursorId(toInt, cursor.value) else None;
    var selected := Filter(s.eventRows, Where(clock, agent, filters, after));
    Success(PageOfRows(clock, Take(Sort(selected, ById()), limit + 1), limit))
  }

  /** The page cut from what LIMIT n + 1 returned. */
  function PageOfRows(clock: Clock, rows: seq<EventRow>, limit: nat): Page<string> {
    var stored := Map(Take(rows, limit), ToStored(clock));
    Page(stored, if |rows| > limit && stored != [] then Some(stored[|stored| - 1].id) else None)
  }

  /** ORDER BY version ASC LIMIT n: the oldest versions first. */
  function SoulHistory(s: State, agent: string, limit: nat): Result<seq<SoulVersion>, Error> {
    if agent !in s.agents then Failure(AgentNotFound(agent))
    else Success(Map(Take(Sort(s.SoulsOf(agent), ByVersion()), limit), ToVersion()))
  }

  /** A listing fails for an unknown agent, then for a `since` that cannot be read, then for a cursor
      that is no number, as if the agent were unknown; never for anything else. */
  lemma {:induction false} ListingFailsIff(clock: Clock, toInt: string -> Option<int>, s: State, agent: string,
          filters: Filters, limit: nat, cursor: Option<string>)
    ensures
      var page := Listing(clock, toInt, s, agent, filters, limit, cursor);
      var unknown, malformed := agent !in s.agents, cursor.Some? && CursorId(toInt, cursor.value) == None;
      var unreadable := filters.since.Some? && clock.parse(filters.since.value) == None;
      && (page.Success? <==> !unknown && !unreadable && !malformed)
      && (page == Failure(AgentNotFound(agent)) <==> unknown || (malformed && !unreadable))
      && (page.Failure? && page.error != AgentNotFound(agent) ==> page.error == BadTimestamp(filters.since.value))
  {
  }

  /** The row id that a cursor for the `after`-th event of an agent names. */
  function IdOf(rows: seq<EventRow>, i: nat): nat {
    if 1 <= i <= |rows| then rows[i - 1].id else 0
  }

  function Step(clock: Clock, toInt: string -> Option<int>, s: State, op: Op)
    : (State, Reply<string>)
  {
    if op.agent !in s.agents then (s, Failed(AgentNotFound(op.agent))) else
    match op
    case AppendEvent(agent, event, serial) =>
      if !clock.Reads(event.timestamp) then (s, Failed(BadTimestamp(event.timestamp))) else
      var row := EventRow(serial, agent, Encode(clock)(event));
      var s' := s.(eventRows := s.eventRows + [row], nextSerial := serial + 1);
      var rows := s'.RowsOf(agent);
      (s', if rows == [] then Failed(IndexOutOfRange) else EventReply(Stored(EventIds.Show(NewestRow(rows).id), event)))
    case ListEvents(agent, filters, limit, after) =>
      var cursor := if after == 0 then None else Some(EventIds.Show(IdOf(s.RowsOf(agent), after)));
      (s, match Listing(clock, toInt, s, agent, filters, limit, cursor)
          case Success(page) => PageReply(page)
          case Failure(error) => Failed(error))
    case Flush(agent, preserve) =>
      (s.(eventRows := Filter(s.eventRows, NotOfAgent(agent)),
          soulRows := if preserve then s.soulRows else Filter(s.soulRows, SoulNotOfAgent(agent))),
       FlushReply(FlushResult(|s.RowsOf(agent)|, true, preserve)))
    case AppendSoul(agent, config) =>
      var mine := s.SoulsOf(agent);
      var soul := SoulRow(agent, (if mine == [] then 0 else LatestRow(mine).version) + 1, config);
      (s.(soulRows := s.soulRows + [soul]), SoulReply(ToVersion()(soul)))
    case LatestSoul(agent) =>
      (s, if s.SoulsOf(agent) == [] then Failed(SoulNotInitialized(agent))
          else SoulReply(ToVersion()(LatestRow(s.SoulsOf(agent)))))
  }

  /** The sequence may supply any later value to the next insert, also the very next one. */
  lemma {:induction false} AnyLaterSerial(clock: Clock, toInt: string -> Option<int>, s: State, op: Op, later: nat)
    requires op.AppendEvent? && s.nextSerial <= op.serial < later
    ensures Step(clock, toInt, s, op).0.nextSerial <= later
  {
  }

  // ---- the runtime ---------------------------------------------------------------------------

  class Runtime {
    var agents: set<string>
    var eventRows: seq<EventRow>
    var soulRows: seq<SoulRow>
    var nextSerial: nat

    /** How timestamps are read and printed, and Python's `int`. */
    const clock: Clock
    const toInt: string -> Option<int>

    function View(): State
      reads this
    {
      State(agents, eventRows, soulRows, nextSerial)
    }

    constructor (clock: Clock, toInt: string -> Option<int>)
      ensures View() == State({}, [], [], 1)
      ensures this.clock == clock && this.toInt == toInt
    {
      agents, eventRows, soulRows, nextSerial := {}, [], [], 1;
      this.clock, this.toInt := clock, toInt;
    }

    method AppendSoul(agent: string, config: SoulConfig) returns (r: Reply<string>)
      modifies this
      ensures (View(), r) == Step(clock, toInt, old(View()), Op.AppendSoul(agent, config))
    {
      if agent !in agents {
        return Failed(AgentNotFound(agent));
      }
      var mine := Filter(soulRows, SoulOfAgent(agent));
      var max := if mine == [] then 0 else LatestRow(mine).version;
      var row := SoulRow(agent, max + 1, config);
      soulRows := soulRows + [row];
      return SoulReply(SoulVersion(row.version, row.config));
    }

    method GetSoulLatest(agent: string) returns (r: Reply<string>)
      ensures (View(), r) == Step(clock, toInt, View(), LatestSoul(agent))
    {
      if agent !in agents {
        return Failed(AgentNotFound(agent));
      }
      var mine := Filter(soulRows, SoulOfAgent(agent));
      if mine == [] {
        return Failed(SoulNotInitialized(agent));
      }
      var row := LatestRow(mine);
      return SoulReply(SoulVersion(row.version, row.config));
    }

    /** The insert and the look-up of the newest row are separate statements.  `serial` is what
        the database sequence supplies: any value not yet given out. */
    method AppendMemoryEvent(agent: string, event: MemoryEvent, serial: nat) returns (r: Reply<string>)
      requires serial >= nextSerial
      modifies this
      ensures (View(), r) == Step(clock, toInt, old(View()), AppendEvent(agent, event, serial))
    {
      if agent !in agents {
        return Failed(AgentNotFound(agent));
      }
      if !clock.Reads(event.timestamp) {
        return Failed(BadTimestamp(event.timestamp));
      }
      eventRows := eventRows + [EventRow(serial, agent, Encode(clock)(event))];
      nextSerial := serial + 1;
      var mine := Filter(eventRows, OfAgent(agent));
      if mine == [] {
        return Failed(IndexOutOfRange);
      }
      return EventReply(Stored(EventIds.Show(NewestRow(mine).id), event));
    }

    method ListMemoryEvents(agent: string, filters: Filters, limit: nat, cursor: Option<string>)
      returns (r: Result<Page<string>, Error>)
      ensures r == Listing(clock, toInt, View(), agent, filters, limit, cursor)
    {
      if agent !in agents {
        return Failure(AgentNotFound(agent));
      }
      if filters.since.Some? && !clock.Reads(filters.since.value) {
        return Failure(BadTimestamp(filters.since.value));
      }
      var after: Option<int> := None;
      if cursor.Some? {
        after := CursorId(toInt, cursor.value);
        if after.None? {
          return Failure(AgentNotFound(agent));
        }
      }
      var rows := Take(Sort(Filter(eventRows, Where(clock, agent, filters, after)), ById()), limit + 1);
      var hasMore := |rows| > limit;
      var stored := Map(Take(rows, limit), ToStored(clock));
      var nextCursor := if hasMore && stored != [] then Some(stored[|stored| - 1].id) else None;
      return Success(Page(stored, nextCursor));
    }

    method ListSoulHistory(agent: string, limit: nat) returns (r: Result<seq<SoulVersion>, Error>)
      ensures r == SoulHistory(View(), agent, limit)
    {
      if agent !in agents {
        return Failure(AgentNotFound(agent));
      }
      var rows := Take(Sort(Filter(soulRows, SoulOfAgent(agent)), ByVersion()), limit);
      return Success(Map(rows, ToVersion()));
    }

    method FlushMemory(agent: string, preserve: bool) returns (r: Reply<string>)
      modifies this
      ensures (View(), r) == Step(clock, toInt, old(View()), Flush(agent, preserve))
    {
      if agent !in agents {
        return Failed(AgentNotFound(agent));
      }
      var count := |Filter(eventRows, OfAgent(agent))|;
      eventRows := Filter(eventRows, NotOfAgent(agent));
      if !preserve {
        soulRows := Filter(soulRows, SoulNotOfAgent(agent));
      }
      return FlushReply(FlushResult(count, true, preserve));
    }
  }

  // ---- refinement of the plain log -----------------------------------------------------------

  /** How an event that was sent with some text for its timestamp comes back. */
  function Respelled(clock: Clock): MemoryEvent -> MemoryEvent {
    (e: MemoryEvent) => e.(timestamp := clock.Shown(e.timestamp))
  }

  /** This runtime calls the i-th event of an agent by its row id and shows it with its timestamp
      printed anew. */
  function AsRow(clock: Clock, rows: seq<EventRow>): Rendering {
    Rendering((i: nat) => EventIds.Show(IdOf(rows, i)), Respelled(clock))
  }

  function EntryOf(): EventRow -> Entry {
    (r: EventRow) => r.entry
  }

  /** The timestamp text a request carries, if any. */
  function Timestamp(op: Op): Option<string> {
    match op
    case AppendEvent(_, event, _) => Some(event.timestamp)
    case ListEvents(_, filters, _, _) => filters.since
    case _ => None
  }

  predicate Readable(clock: Clock, op: Op) {
    Timestamp(op).Some? ==> clock.Reads(Timestamp(op).value)
  }

  /** The log's step in which a request whose timestamp cannot be read is refused. */
  function GuardedStep(clock: Clock, log: Log, op: Op): (Log, Reply<nat>)
    requires op.ListEvents? && op.agent in log.agents ==> op.after <= |log.EventsOf(op.agent)| && op.limit >= 1
  {
    if op.agent in log.agents && !Readable(clock, op) then (log, Failed(BadTimestamp(Timestamp(op).value)))
    else LogStep(clock.AtOrAfter(), log, op)
  }

  function SoulRows(agent: string, configs: seq<SoulConfig>): seq<SoulRow> {
    seq(|configs|, i requires 0 <= i < |configs| => SoulRow(agent, i + 1, configs[i]))
  }

  ghost predicate Ascending(rows: seq<EventRow>) {
    forall i, j :: 0 <= i < j < |rows| ==> rows[i].id < rows[j].id
  }

  /** Row ids ascend in insertion order and stay below the next serial value; an agent's rows hold
      its events in order, all with readable timestamps; its soul rows are versions one, two, and so
      on, without gaps. */
  ghost predicate Represents(clock: Clock, s: State, log: Log) {
    && s.agents == log.agents
    && EventsRepresent(clock, s.eventRows, s.nextSerial, log.events)
    && SoulsRepresent(s.soulRows, log.souls)
  }

  ghost predicate EventsRepresent(clock: Clock, rows: seq<EventRow>, nextSerial: nat,
          events: map<string, seq<MemoryEvent>>)
  {
    && Ascending(rows)
    && (forall i :: 0 <= i < |rows| ==> rows[i].id < nextSerial)
    && (forall a :: Holds(clock, Filter(rows, OfAgent(a)), Entries(events, a)))
  }

  /** Rows that hold exactly these events. */
  ghost predicate Holds(clock: Clock, rows: seq<EventRow>, events: seq<MemoryEvent>) {
    Map(rows, EntryOf()) == Map(events, Encode(clock)) && AllReadable(clock, events)
  }

  ghost predicate AllReadable(clock: Clock, events: seq<MemoryEvent>) {
    forall i :: 0 <= i < |events| ==> clock.Reads(events[i].timestamp)
  }

  ghost predicate SoulsRepresent(rows: seq<SoulRow>, souls: map<string, seq<SoulConfig>>) {
    forall a :: Filter(rows, SoulOfAgent(a)) == SoulRows(a, Entries(souls, a))
  }

  lemma {:induction false} FilterAscends(rows: seq<EventRow>, p: EventRow -> bool)
    requires Ascending(rows)
    ensures Ascending(Filter(rows, p))
  {
    if rows != [] {
      FilterAscends(rows[1..], p);
      var rest := Filter(rows[1..], p);
      forall j | 0 <= j < |rest|
        ensures rows[0].id < rest[j].id
      {
        FilterMembers(rows[1..], p);
        assert rest[j] in rest;
      }
    }
  }

  lemma {:induction false} AscendingIsSorted(rows: seq<EventRow>)
    requires Ascending(rows)
    ensures Sort(rows, ById()) == rows
  {
    SortedIsFixed(rows, ById());
  }

  lemma {:induction false} NewestIsLast(rows: seq<EventRow>)
    requires rows != [] && Ascending(rows)
    ensures NewestRow(rows) == rows[|rows| - 1]
  {
    if |rows| > 1 {
      NewestIsLast(rows[1..]);
    }
  }

  lemma {:induction false} LatestIsLast(rows: seq<SoulRow>, first: nat)
    requires rows != [] && forall i :: 0 <= i < |rows| ==> rows[i].version == first + i
    ensures LatestRow(rows) == rows[|rows| - 1]
  {
    if |rows| > 1 {
      LatestIsLast(rows[1..], first + 1);
    }
  }

  /** The WHERE clause selects, among an agent's rows, the matching ones behind the cursor. */
  lemma {:induction false} SelectionIsTail(clock: Clock, s: State, agent: string, filters: Filters, after: nat)
    requires Ascending(s.eventRows) && after <= |s.RowsOf(agent)|
    ensures
      var cursor := if after == 0 then None else Some(IdOf(s.RowsOf(agent), after));
      Filter(s.eventRows, Where(clock, agent, filters, cursor))
        == Filter(s.RowsOf(agent)[after..], Where(clock, agent, filters, None))
  {
    var rows := s.RowsOf(agent);
    var cursor := if after == 0 then None else Some(IdOf(rows, after));
    var where, plain := Where(clock, agent, filters, cursor), Where(clock, agent, filters, None);
    FilterAscends(s.eventRows, OfAgent(agent));
    FilterTwice(s.eventRows, OfAgent(agent), where, where);
    assert forall i :: 0 <= i < after ==> !where(rows[i]);
    assert forall i :: after <= i < |rows| ==> where(rows[i]) == plain(rows[i]);
    FilterBehind(rows, after, where, plain);
  }

  lemma {:induction false} FilterBehind(rows: seq<EventRow>, after: nat, where: EventRow -> bool,
          plain: EventRow -> bool)
    requires after <= |rows|
    requires forall i :: 0 <= i < after ==> !where(rows[i])
    requires forall i :: after <= i < |rows| ==> where(rows[i]) == plain(rows[i])
    ensures Filter(rows, where) == Filter(rows[after..], plain)
  {
    FilterSplit(rows, where, after);
    FilterNone(rows[..after], where);
    FilterAgrees(rows[after..], where, plain);
  }

  lemma {:induction false} TailIsRemaining(clock: Clock, s: State, events: seq<MemoryEvent>, agent: string,
          filters: Filters, after: nat)
    requires Holds(clock, s.RowsOf(agent), events) && after <= |events|
    ensures Map(Filter(s.RowsOf(agent)[after..], Where(clock, agent, filters, None)), ToStored(clock))
         == Map(Remaining(clock.AtOrAfter(), events, filters, after), Rendered(AsRow(clock, s.RowsOf(agent))))
  {
    var rows := s.RowsOf(agent);
    var a, b := rows[after..], Numbered(events)[after..];
    var p, q := Where(clock, agent, filters, None), Matching<nat>(clock.AtOrAfter(), filters);
    FilterMembers(s.eventRows, OfAgent(agent));
    SameSize(clock, rows, events);
    forall i | 0 <= i < |a|
      ensures p(a[i]) == q(b[i]) && ToStored(clock)(a[i]) == Rendered(AsRow(clock, rows))(b[i])
    {
      assert rows[after + i] in rows;
      assert Map(rows, EntryOf())[after + i] == Map(events, Encode(clock))[after + i];
      assert rows[after + i].entry == Encode(clock)(events[after + i]);
      assert Decode(clock)(Encode(clock)(events[after + i])) == Respelled(clock)(events[after + i]);
    }
    FilterAlongside(a, b, p, q, ToStored(clock), Rendered(AsRow(clock, rows)));
  }

  lemma {:induction false} ListingRefinesLog(clock: Clock, toInt: string -> Option<int>, s: State, log: Log,
          agent: string, filters: Filters, limit: nat, after: nat)
    requires Represents(clock, s, log) && agent in log.agents
    requires ReadsDecimals(toInt)
    requires limit >= 1 && after <= |log.EventsOf(agent)|
    requires filters.since.Some? ==> clock.Reads(filters.since.value)
    ensures
      var rows := s.RowsOf(agent);
      var cursor := if after == 0 then None else Some(EventIds.Show(IdOf(rows, after)));
      var page := PageOf(Remaining(clock.AtOrAfter(), log.EventsOf(agent), filters, after), limit);
      Listing(clock, toInt, s, agent, filters, limit, cursor) == Success(RenderPage(page, AsRow(clock, rows)))
  {
    var rows, events := s.RowsOf(agent), log.EventsOf(agent);
    assert Holds(clock, rows, events);
    SameSize(clock, rows, events);
    TailIsRemaining(clock, s, events, agent, filters, after);
    PageOfRendered(Remaining(clock.AtOrAfter(), events, filters, after), limit, AsRow(clock, rows));
    CursorReadsBack(toInt, IdOf(rows, after));
    SelectedPage(clock, toInt, s, agent, filters, limit, after);
  }

  /** All that is assumed of Python's `int`: it reads back what `str` printed. */
  ghost predicate ReadsDecimals(toInt: string -> Option<int>) {
    forall n: nat :: toInt(Decimal.Show(n)) == Some(n)
  }

  lemma {:induction false} CursorReadsBack(toInt: string -> Option<int>, id: nat)
    requires ReadsDecimals(toInt)
    ensures CursorId(toInt, EventIds.Show(id)) == Some(id)
  {
    EventIds.RemovePrefixOfId(id);
  }

  lemma {:induction false} SelectedPage(clock: Clock, toInt: string -> Option<int>, s: State, agent: string,
          filters: Filters, limit: nat, after: nat)
    requires agent in s.agents && Ascending(s.eventRows) && limit >= 1 && after <= |s.RowsOf(agent)|
    requires filters.since.Some? ==> clock.Reads(filters.since.value)
    requires after > 0 ==>
      CursorId(toInt, EventIds.Show(IdOf(s.RowsOf(agent), after))) == Some(IdOf(s.RowsOf(agent), after))
    ensures
      var rows := s.RowsOf(agent);
      var cursor := if after == 0 then None else Some(EventIds.Show(IdOf(rows, after)));
      Listing(clock, toInt, s, agent, filters, limit, cursor)
        == Success(PageOf(Map(Filter(rows[after..], Where(clock, agent, filters, None)), ToStored(clock)), limit))
  {
    var cursor := if after == 0 then None else Some(IdOf(s.RowsOf(agent), after));
    SelectionIsTail(clock, s, agent, filters, after);
    SortedSelection(clock, s.eventRows, Where(clock, agent, filters, cursor), limit);
  }

  /** Rows come in id order already, and one row more than the limit tells whether there is a
      next page. */
  lemma {:induction false} SortedSelection(clock: Clock, all: seq<EventRow>, where: EventRow -> bool, limit: nat)
    requires Ascending(all) && limit >= 1
    ensures PageOfRows(clock, Take(Sort(Filter(all, where), ById()), limit + 1), limit)
         == PageOf(Map(Filter(all, where), ToStored(clock)), limit)
  {
    FilterAscends(all, where);
    AscendingIsSorted(Filter(all, where));
    LimitPlusOne(clock, Filter(all, where), limit);
  }

  lemma {:induction false} LimitPlusOne(clock: Clock, selected: seq<EventRow>, limit: nat)
    requires limit >= 1
    ensures PageOfRows(clock, Take(selected, limit + 1), limit) == PageOf(Map(selected, ToStored(clock)), limit)
  {
  }

  lemma {:induction false} AppendedRows(rows: seq<EventRow>, row: EventRow, agent: string)
    ensures Filter(rows + [row], OfAgent(agent))
         == Filter(rows, OfAgent(agent)) + if row.agent == agent then [row] else []
  {
    FilterConcat(rows, [row], OfAgent(agent));
  }

  lemma {:induction false} SameSize(clock: Clock, rows: seq<EventRow>, events: seq<MemoryEvent>)
    requires Holds(clock, rows, events)
    ensures |rows| == |events|
  {
    assert |Map(rows, EntryOf())| == |rows|;
  }

  lemma {:induction false} HoldsOneMore(clock: Clock, rows: seq<EventRow>, events: seq<MemoryEvent>, row: EventRow,
          event: MemoryEvent)
    requires Holds(clock, rows, events) && row.entry == Encode(clock)(event) && clock.Reads(event.timestamp)
    ensures Holds(clock, rows + [row], events + [event])
  {
    MapConcat(rows, [row], EntryOf());
    MapConcat(events, [event], Encode(clock));
    assert Map([row], EntryOf()) == [row.entry] == Map([event], Encode(clock));
  }

  lemma {:induction false} AppendHolds(clock: Clock, rows: seq<EventRow>, events: map<string, seq<MemoryEvent>>,
          row: EventRow, event: MemoryEvent, agent: string)
    requires Holds(clock, Filter(rows, OfAgent(agent)), Entries(events, agent))
    requires row.entry == Encode(clock)(event) && clock.Reads(event.timestamp)
    ensures Holds(clock, Filter(rows + [row], OfAgent(agent)),
                  Entries(events[row.agent := Entries(events, row.agent) + [event]], agent))
  {
    AppendedRows(rows, row, agent);
    if agent == row.agent {
      HoldsOneMore(clock, Filter(rows, OfAgent(agent)), Entries(events, agent), row, event);
    }
  }

  lemma {:induction false} AppendRepresents(clock: Clock, rows: seq<EventRow>, nextSerial: nat,
          events: map<string, seq<MemoryEvent>>, row: EventRow, event: MemoryEvent)
    requires EventsRepresent(clock, rows, nextSerial, events) && row.id >= nextSerial
    requires row.entry == Encode(clock)(event) && clock.Reads(event.timestamp)
    ensures EventsRepresent(clock, rows + [row], row.id + 1,
                            events[row.agent := Entries(events, row.agent) + [event]])
  {
    var events' := events[row.agent := Entries(events, row.agent) + [event]];
    forall a
      ensures Holds(clock, Filter(rows + [row], OfAgent(a)), Entries(events', a))
    {
      assert Holds(clock, Filter(rows, OfAgent(a)), Entries(events, a));
      AppendHolds(clock, rows, events, row, event, a);
    }
  }

  lemma {:induction false} AppendedRowIsNewest(rows: seq<EventRow>, row: EventRow)
    requires Ascending(rows + [row])
    ensures NewestRow(Filter(rows, OfAgent(row.agent)) + [row]) == row
  {
    AppendedRows(rows, row, row.agent);
    FilterAscends(rows + [row], OfAgent(row.agent));
    NewestIsLast(Filter(rows, OfAgent(row.agent)) + [row]);
  }

  lemma {:induction false} DeleteRepresents(clock: Clock, rows: seq<EventRow>, nextSerial: nat,
          events: map<string, seq<MemoryEvent>>, agent: string)
    requires EventsRepresent(clock, rows, nextSerial, events)
    ensures EventsRepresent(clock, Filter(rows, NotOfAgent(agent)), nextSerial, events - {agent})
  {
    var left := Filter(rows, NotOfAgent(agent));
    FilterAscends(rows, NotOfAgent(agent));
    FilterMembers(rows, NotOfAgent(agent));
    forall i | 0 <= i < |left|
      ensures left[i].id < nextSerial
    {
      assert left[i] in left;
    }
    forall a
      ensures Holds(clock, Filter(left, OfAgent(a)), Entries(events - {agent}, a))
    {
      if a == agent {
        FilterDisjoint(rows, NotOfAgent(agent), OfAgent(a));
      } else {
        FilterTwice(rows, NotOfAgent(agent), OfAgent(a), OfAgent(a));
        assert Holds(clock, Filter(rows, OfAgent(a)), Entries(events, a));
      }
    }
  }

  lemma {:induction false} AppendSoulRepresents(rows: seq<SoulRow>, souls: map<string, seq<SoulConfig>>, agent: string,
          config: SoulConfig)
    requires SoulsRepresent(rows, souls)
    ensures SoulsRepresent(rows + [SoulRow(agent, |Entries(souls, agent)| + 1, config)],
                           souls[agent := Entries(souls, agent) + [config]])
  {
    var row := SoulRow(agent, |Entries(souls, agent)| + 1, config);
    var souls' := souls[agent := Entries(souls, agent) + [config]];
    forall a
      ensures Filter(rows + [row], SoulOfAgent(a)) == SoulRows(a, Entries(souls', a))
    {
      FilterConcat(rows, [row], SoulOfAgent(a));
      assert Filter(rows, SoulOfAgent(a)) == SoulRows(a, Entries(souls, a));
      if a == agent {
        assert Entries(souls', a) == Entries(souls, a) + [config];
        assert SoulRows(a, Entries(souls, a) + [config]) == SoulRows(a, Entries(souls, a)) + [row];
      } else {
        assert Filter([row], SoulOfAgent(a)) == [];
      }
    }
  }

  lemma {:induction false} DeleteSoulsRepresents(rows: seq<SoulRow>, souls: map<string, seq<SoulConfig>>, agent: string)
    requires SoulsRepresent(rows, souls)
    ensures SoulsRepresent(Filter(rows, SoulNotOfAgent(agent)), souls - {agent})
  {
    forall a
      ensures Filter(Filter(rows, SoulNotOfAgent(agent)), SoulOfAgent(a)) == SoulRows(a, Entries(souls - {agent}, a))
    {
      if a == agent {
        FilterDisjoint(rows, SoulNotOfAgent(agent), SoulOfAgent(a));
      } else {
        FilterTwice(rows, SoulNotOfAgent(agent), SoulOfAgent(a), SoulOfAgent(a));
        assert Filter(rows, SoulOfAgent(a)) == SoulRows(a, Entries(souls, a));
      }
    }
  }

  lemma {:induction false} AppendEventRefinesLog(clock: Clock, toInt: string -> Option<int>, s: State, log: Log, op: Op)
    requires Represents(clock, s, log) && op.AppendEvent? && op.agent in s.agents && op.serial >= s.nextSerial
    ensures
      var s' := Step(clock, toInt, s, op).0;
      && Represents(clock, s', GuardedStep(clock, log, op).0)
      && Step(clock, toInt, s, op).1 == Render(GuardedStep(clock, log, op).1, AsRow(clock, s'.RowsOf(op.agent)))
  {
    if clock.Reads(op.event.timestamp) {
      var row := EventRow(op.serial, op.agent, Encode(clock)(op.event));
      AppendRepresents(clock, s.eventRows, s.nextSerial, log.events, row, op.event);
      AppendedRows(s.eventRows, row, op.agent);
      AppendedRowIsNewest(s.eventRows, row);
      assert Holds(clock, s.RowsOf(op.agent), log.EventsOf(op.agent));
      SameSize(clock, s.RowsOf(op.agent), log.EventsOf(op.agent));
    }
  }

  lemma {:induction false} FlushRefinesLog(clock: Clock, toInt: string -> Option<int>, s: State, log: Log, op: Op)
    requires Represents(clock, s, log) && op.Flush? && op.agent in s.agents
    ensures Represents(clock, Step(clock, toInt, s, op).0, GuardedStep(clock, log, op).0)
    ensures forall how :: Step(clock, toInt, s, op).1 == Render(GuardedStep(clock, log, op).1, how)
  {
    DeleteRepresents(clock, s.eventRows, s.nextSerial, log.events, op.agent);
    DeleteSoulsRepresents(s.soulRows, log.souls, op.agent);
    assert Holds(clock, s.RowsOf(op.agent), log.EventsOf(op.agent));
    SameSize(clock, s.RowsOf(op.agent), log.EventsOf(op.agent));
  }

  /** What MAX(version) and the newest row are. */
  lemma {:induction false} LatestSoulRow(s: State, log: Log, agent: string)
    requires SoulsRepresent(s.soulRows, log.souls)
    ensures
      var rows, configs := s.SoulsOf(agent), log.SoulsOf(agent);
      && |rows| == |configs|
      && (rows != [] ==> LatestRow(rows) == SoulRow(agent, |configs|, configs[|configs| - 1]))
  {
    assert s.SoulsOf(agent) == SoulRows(agent, log.SoulsOf(agent));
    if s.SoulsOf(agent) != [] {
      LatestIsLast(s.SoulsOf(agent), 1);
    }
  }

  lemma {:induction false} SoulAppended(clock: Clock, toInt: string -> Option<int>, s: State, log: Log, op: Op)
    requires Represents(clock, s, log) && op.agent in s.agents && op.AppendSoul?
    ensures
      var n := |log.SoulsOf(op.agent)| + 1;
      Step(clock, toInt, s, op)
        == (s.(soulRows := s.soulRows + [SoulRow(op.agent, n, op.config)]), SoulReply(SoulVersion(n, op.config)))
  {
    LatestSoulRow(s, log, op.agent);
  }

  lemma {:induction false} AppendSoulRefinesLog(clock: Clock, toInt: string -> Option<int>, s: State, log: Log, op: Op)
    requires Represents(clock, s, log) && op.agent in s.agents && op.AppendSoul?
    ensures Represents(clock, Step(clock, toInt, s, op).0, GuardedStep(clock, log, op).0)
    ensures forall how :: Step(clock, toInt, s, op).1 == Render(GuardedStep(clock, log, op).1, how)
  {
    SoulAppended(clock, toInt, s, log, op);
    AppendSoulRepresents(s.soulRows, log.souls, op.agent, op.config);
  }

  lemma {:induction false} LatestSoulRefinesLog(clock: Clock, toInt: string -> Option<int>, s: State, log: Log, op: Op)
    requires Represents(clock, s, log) && op.agent in s.agents && op.LatestSoul?
    ensures Represents(clock, Step(clock, toInt, s, op).0, GuardedStep(clock, log, op).0)
    ensures forall how :: Step(clock, toInt, s, op).1 == Render(GuardedStep(clock, log, op).1, how)
  {
    LatestSoulRow(s, log, op.agent);
  }

  lemma {:induction false} ListEventsRefinesLog(clock: Clock, toInt: string -> Option<int>, s: State, log: Log, op: Op)
    requires Represents(clock, s, log) && op.agent in s.agents && op.ListEvents? && ReadsDecimals(toInt)
    requires op.limit >= 1 && op.after <= |log.EventsOf(op.agent)|
    ensures Step(clock, toInt, s, op).0 == s && GuardedStep(clock, log, op).0 == log
    ensures Step(clock, toInt, s, op).1 == Render(GuardedStep(clock, log, op).1, AsRow(clock, s.RowsOf(op.agent)))
  {
    if Readable(clock, op) {
      ListingRefinesLog(clock, toInt, s, log, op.agent, op.filters, op.limit, op.after);
    }
  }

  /** Every request leaves the tables representing the log, and answers as the log does, under the
      row ids and with timestamps printed anew; one with a timestamp that cannot be read is refused
      and changes nothing.  A cursor may be used with any filters. */
  lemma {:induction false} StepRefinesLog(clock: Clock, toInt: string -> Option<int>, s: State, log: Log, op: Op)
    requires Represents(clock, s, log) && ReadsDecimals(toInt)
    requires op.AppendEvent? ==> op.serial >= s.nextSerial
    requires op.ListEvents? && op.agent in log.agents ==> op.limit >= 1 && op.after <= |log.EventsOf(op.agent)|
    ensures
      var s' := Step(clock, toInt, s, op).0;
      && Represents(clock, s', GuardedStep(clock, log, op).0)
      && Step(clock, toInt, s, op).1 == Render(GuardedStep(clock, log, op).1, AsRow(clock, s'.RowsOf(op.agent)))
  {
    if op.agent in s.agents {
      match op {
        case AppendEvent(_, _, _) => AppendEventRefinesLog(clock, toInt, s, log, op);
        case ListEvents(_, _, _, _) => ListEventsRefinesLog(clock, toInt, s, log, op);
        case Flush(_, _) => FlushRefinesLog(clock, toInt, s, log, op);
        case AppendSoul(_, _) => AppendSoulRefinesLog(clock, toInt, s, log, op);
        case LatestSoul(_) => LatestSoulRefinesLog(clock, toInt, s, log, op);
      }
    }
  }
}
