/**
 The two agent runtimes side by side (agentcook/src/agentcook_app/services.py and
 agentcook/src/agentcook_app/runtime_pg.py): what a run of requests gets from either, up to how
 they name events and spell timestamps.
 */
module RuntimeSimulation {
  import opened Wrappers
  import opened Seqs
  import opened AgentRuntime
  import opened Timestamps
  import EventIds
  import Memory = InMemoryRuntime
  import Pg = PgRuntime

  /** The plain log and both runtimes, driven by the same requests. */
  datatype World = World(log: Log, memory: Memory.State, pg: Pg.State)

  /** Parameters of a run: one runtime compares the text of timestamps, the other the instants its
      clock reads from them; and how cursor text is read. */
  datatype Setting = Setting(
    byText: (string, string) -> bool,
    clock: Clock,
    toInt: string -> Option<int>,
    agents: set<string>)
  {
    function ByInstant(): (string, string) -> bool {
      clock.AtOrAfter()
    }
  }

  function Start(setting: Setting): World {
    World(Log(setting.agents, map[], map[]),
          Memory.State(setting.agents, map[], map[], map[]),
          Pg.State(setting.agents, [], [], 1))
  }

  /** What a client may send: the database never reuses a serial value, timestamps can be read, the
      router only lets limits of at least one through, and a cursor names an event that passes the
      filters it comes with. */
  ghost predicate Admissible(setting: Setting, w: World, op: Op) {
    && (op.AppendEvent? ==> op.serial >= w.pg.nextSerial)
    && (op.agent in w.log.agents ==> Pg.Readable(setting.clock, op))
    && (op.ListEvents? && op.agent in w.log.agents ==>
          && op.limit >= 1
          && CursorFits(setting, w.log.EventsOf(op.agent), op.filters, op.after))
  }

  predicate CursorFits(setting: Setting, events: seq<MemoryEvent>, filters: Filters, after: nat) {
    after <= |events| && (after >= 1 ==> Matches(setting.byText, filters, events[after - 1]))
  }

  /** A listing leaves the log alone; every other request moves it, whatever timestamps mean. */
  function LogAfter(setting: Setting, log: Log, op: Op): Log {
    if op.ListEvents? then log else LogStep(setting.byText, log, op).0
  }

  function Advance(setting: Setting, w: World, op: Op): World {
    World(LogAfter(setting, w.log, op),
          Memory.Step(setting.byText, w.memory, op).0,
          Pg.Step(setting.clock, setting.toInt, w.pg, op).0)
  }

  function MemoryReply(setting: Setting, w: World, op: Op): Reply<string> {
    Memory.Step(setting.byText, w.memory, op).1
  }

  function PgReply(setting: Setting, w: World, op: Op): Reply<string> {
    Pg.Step(setting.clock, setting.toInt, w.pg, op).1
  }

  /** The worlds a sequence of requests passes through. */
  ghost predicate Passes(setting: Setting, ops: seq<Op>, worlds: seq<World>) {
    && |worlds| == |ops| + 1
    && worlds[0] == Start(setting)
    && forall i :: 0 <= i < |ops| ==> worlds[i + 1] == Advance(setting, worlds[i], ops[i])
  }

  /** A run of admissible requests. */
  ghost predicate IsRun(setting: Setting, ops: seq<Op>, worlds: seq<World>) {
    Passes(setting, ops, worlds) && forall i :: 0 <= i < |ops| ==> Admissible(setting, worlds[i], ops[i])
  }

  ghost predicate InStep(setting: Setting, w: World) {
    Memory.Represents(w.memory, w.log) && Pg.Represents(setting.clock, w.pg, w.log)
  }

  lemma {:induction false} MemoryAdvances(setting: Setting, w: World, op: Op)
    requires Memory.Represents(w.memory, w.log) && Admissible(setting, w, op)
    ensures Memory.Represents(Advance(setting, w, op).memory, Advance(setting, w, op).log)
    ensures MemoryReply(setting, w, op) == Render(LogStep(setting.byText, w.log, op).1, Memory.AsStored())
  {
    Memory.StepRefinesLog(setting.byText, w.memory, w.log, op);
  }

  lemma {:induction false} PgAdvances(setting: Setting, w: World, op: Op)
    requires Pg.Represents(setting.clock, w.pg, w.log) && Admissible(setting, w, op) && Pg.ReadsDecimals(setting.toInt)
    ensures Pg.Represents(setting.clock, Advance(setting, w, op).pg, Advance(setting, w, op).log)
    ensures PgReply(setting, w, op)
         == Render(LogStep(setting.ByInstant(), w.log, op).1,
                   Pg.AsRow(setting.clock, Advance(setting, w, op).pg.RowsOf(op.agent)))
  {
    Pg.StepRefinesLog(setting.clock, setting.toInt, w.pg, w.log, op);
    assert Pg.GuardedStep(setting.clock, w.log, op) == LogStep(setting.ByInstant(), w.log, op);
    SameLogAfter(setting, w.log, op);
  }

  /** How timestamps compare does not matter to the log. */
  lemma {:induction false} SameLogAfter(setting: Setting, log: Log, op: Op)
    requires op.ListEvents? && op.agent in log.agents ==> op.after <= |log.EventsOf(op.agent)| && op.limit >= 1
    ensures LogStep(setting.ByInstant(), log, op).0 == LogAfter(setting, log, op)
  {
  }

  /** One request: both runtimes stay in step with the log, and each gives the log's answer under
      its own comparison of timestamps. */
  lemma {:induction false} AdvanceInStep(setting: Setting, w: World, op: Op)
    requires InStep(setting, w) && Admissible(setting, w, op) && Pg.ReadsDecimals(setting.toInt)
    ensures InStep(setting, Advance(setting, w, op))
    ensures MemoryReply(setting, w, op) == Render(LogStep(setting.byText, w.log, op).1, Memory.AsStored())
    ensures PgReply(setting, w, op)
         == Render(LogStep(setting.ByInstant(), w.log, op).1,
                   Pg.AsRow(setting.clock, Advance(setting, w, op).pg.RowsOf(op.agent)))
  {
    MemoryAdvances(setting, w, op);
    PgAdvances(setting, w, op);
  }

  lemma {:induction false} RunStaysInStep(setting: Setting, ops: seq<Op>, worlds: seq<World>, i: nat)
    requires Passes(setting, ops, worlds) && i < |worlds| && Pg.ReadsDecimals(setting.toInt)
    requires forall k :: 0 <= k < i ==> Admissible(setting, worlds[k], ops[k])
    ensures InStep(setting, worlds[i])
  {
    if i == 0 {
      StartIsInStep(setting);
    } else {
      RunStaysInStep(setting, ops, worlds, i - 1);
      AdvanceInStep(setting, worlds[i - 1], ops[i - 1]);
    }
  }

  lemma {:induction false} StartIsInStep(setting: Setting)
    ensures InStep(setting, Start(setting))
  {
    var w := Start(setting);
    forall a
      ensures w.memory.EventsOf(a) == Map(Numbered(w.log.EventsOf(a)), Rendered(Memory.AsStored()))
      ensures Pg.Holds(setting.clock, w.pg.RowsOf(a), w.log.EventsOf(a))
    {
    }
  }

  // ---- equal answers ----------------------------------------------------------------------------

  /** The two comparisons decide alike on every event behind the cursor. */
  ghost predicate ComparisonsAgree(setting: Setting, events: seq<MemoryEvent>, filters: Filters, after: nat) {
    forall k :: after <= k < |events| ==>
      Matches(setting.byText, filters, events[k]) == Matches(setting.ByInstant(), filters, events[k])
  }

  /** That is so for every request but a listing, and for a listing without `since`. */
  ghost predicate AnswersComparable(setting: Setting, w: World, op: Op) {
    op.ListEvents? && op.agent in w.log.agents ==>
      ComparisonsAgree(setting, w.log.EventsOf(op.agent), op.filters, op.after)
  }

  lemma {:induction false} SameRemaining(setting: Setting, events: seq<MemoryEvent>, filters: Filters, after: nat)
    requires after <= |events| && ComparisonsAgree(setting, events, filters, after)
    ensures Remaining(setting.byText, events, filters, after) == Remaining(setting.ByInstant(), events, filters, after)
  {
    FilterAgrees(Numbered(events)[after..], Matching(setting.byText, filters), Matching(setting.ByInstant(), filters));
  }

  /** The i-th request of a run gets one and the same answer of the log from both runtimes, each
      in its own rendering: `evt_k` for the k-th event of the agent and timestamps as they were sent
      here, the id of the agent's k-th row and timestamps printed anew there.  For a listing this
      takes that the two comparisons agree. */
  lemma {:induction false} BothAnswerAsTheLog(setting: Setting, ops: seq<Op>, worlds: seq<World>, i: nat)
    requires IsRun(setting, ops, worlds) && i < |ops| && Pg.ReadsDecimals(setting.toInt)
    requires AnswersComparable(setting, worlds[i], ops[i])
    ensures Admissible(setting, worlds[i], ops[i])
    ensures
      var reply, rows := LogStep(setting.byText, worlds[i].log, ops[i]).1, worlds[i + 1].pg.RowsOf(ops[i].agent);
      && MemoryReply(setting, worlds[i], ops[i]) == Render(reply, Memory.AsStored())
      && PgReply(setting, worlds[i], ops[i]) == Render(reply, Pg.AsRow(setting.clock, rows))
  {
    RunStaysInStep(setting, ops, worlds, i);
    AdvanceInStep(setting, worlds[i], ops[i]);
    OneAnswer(setting, worlds[i].log, ops[i]);
  }

  lemma {:induction false} OneAnswer(setting: Setting, log: Log, op: Op)
    requires op.ListEvents? && op.agent in log.agents ==>
      && op.limit >= 1 && op.after <= |log.EventsOf(op.agent)|
      && ComparisonsAgree(setting, log.EventsOf(op.agent), op.filters, op.after)
    ensures LogStep(setting.byText, log, op) == LogStep(setting.ByInstant(), log, op)
  {
    if op.ListEvents? && op.agent in log.agents {
      SameRemaining(setting, log.EventsOf(op.agent), op.filters, op.after);
    }
  }

  /** In every world of a run the two naming schemes are order isomorphic: an earlier event has
      the smaller number in both. */
  lemma {:induction false} NamesAreOrderIsomorphic(setting: Setting, ops: seq<Op>, worlds: seq<World>, i: nat,
          agent: string, j: nat, k: nat)
    requires IsRun(setting, ops, worlds) && i < |worlds| && Pg.ReadsDecimals(setting.toInt)
    requires 1 <= j <= |worlds[i].log.EventsOf(agent)| && 1 <= k <= |worlds[i].log.EventsOf(agent)|
    ensures
      var rows, stored := worlds[i].pg.RowsOf(agent), worlds[i].memory.EventsOf(agent);
      && |rows| == |stored| == |worlds[i].log.EventsOf(agent)|
      && stored[j - 1].id == EventIds.Show(j)
      && rows[j - 1].entry == Pg.Encode(setting.clock)(stored[j - 1].event)
      && (j < k <==> Pg.IdOf(rows, j) < Pg.IdOf(rows, k))
  {
    RunStaysInStep(setting, ops, worlds, i);
    var w := worlds[i];
    var rows := w.pg.RowsOf(agent);
    Pg.FilterAscends(w.pg.eventRows, Pg.OfAgent(agent));
    assert Pg.Holds(setting.clock, rows, w.log.EventsOf(agent));
    Pg.SameSize(setting.clock, rows, w.log.EventsOf(agent));
    assert Map(rows, Pg.EntryOf())[j - 1] == Map(w.log.EventsOf(agent), Pg.Encode(setting.clock))[j - 1];
    if k < j {
      assert rows[k - 1].id < rows[j - 1].id;
    }
  }

  function Seen<Id>(show: MemoryEvent -> MemoryEvent): Stored<Id> -> MemoryEvent {
    (s: Stored<Id>) => show(s.event)
  }

  /** The two listings show the same events in the same order, names aside and with the first one's
      events read through `show`, and a next page is offered by both or by neither. */
  predicate SamePage(m: Reply<string>, p: Reply<string>, show: MemoryEvent -> MemoryEvent) {
    && m.PageReply? && p.PageReply?
    && Map(m.page.events, Seen(show)) == Map(p.page.events, Seen(Verbatim()))
    && (m.page.nextCursor.Some? <==> p.page.nextCursor.Some?)
  }

  /** The event's timestamp is spelled as the database prints it. */
  predicate SpelledAsShown(clock: Clock, event: MemoryEvent) {
    clock.Shown(event.timestamp) == event.timestamp
  }

  ghost predicate AllSpelledAsShown<Id>(clock: Clock, events: seq<Stored<Id>>) {
    forall k :: 0 <= k < |events| ==> SpelledAsShown(clock, events[k].event)
  }

  /** One page of the log in the two renderings: alike up to spelling, and to the letter exactly
      when every timestamp on it is spelled as the database prints it. */
  lemma {:induction false} OnePageTwice(clock: Clock, page: Page<nat>, rows: seq<Pg.EventRow>)
    ensures
      var m, p := PageReply(RenderPage(page, Memory.AsStored())), PageReply(RenderPage(page, Pg.AsRow(clock, rows)));
      && SamePage(m, p, Pg.Respelled(clock))
      && (SamePage(m, p, Verbatim()) <==> AllSpelledAsShown(clock, m.page.events))
  {
    var a, b := RenderPage(page, Memory.AsStored()).events, RenderPage(page, Pg.AsRow(clock, rows)).events;
    forall k | 0 <= k < |a|
      ensures a[k].event == page.events[k].event && b[k].event == Pg.Respelled(clock)(a[k].event)
      ensures SpelledAsShown(clock, a[k].event) <==> Seen(Verbatim())(a[k]) == Seen(Verbatim())(b[k])
    {
    }
    if AllSpelledAsShown(clock, a) {
      assert Map(a, Seen(Verbatim())) == Map(b, Seen(Verbatim()));
    }
    if Map(a, Seen(Verbatim())) == Map(b, Seen(Verbatim())) {
      forall k | 0 <= k < |a|
        ensures SpelledAsShown(clock, a[k].event)
      {
        assert Map(a, Seen(Verbatim()))[k] == Map(b, Seen(Verbatim()))[k];
      }
    }
  }

  /** So a listing in a run returns the same events in the same pages, up to how their timestamps are
      spelled, and offers a next page at the same moments, provided the two comparisons agree on the
      events behind the cursor.  The two are equal to the letter exactly when every timestamp on the
      page is spelled as the database prints it. */
  lemma {:induction false} SamePages(setting: Setting, ops: seq<Op>, worlds: seq<World>, i: nat)
    requires IsRun(setting, ops, worlds) && i < |ops| && Pg.ReadsDecimals(setting.toInt)
    requires ops[i].ListEvents? && ops[i].agent in setting.agents
    requires ComparisonsAgree(setting, worlds[i].log.EventsOf(ops[i].agent), ops[i].filters, ops[i].after)
    ensures
      var m, p := MemoryReply(setting, worlds[i], ops[i]), PgReply(setting, worlds[i], ops[i]);
      && SamePage(m, p, Pg.Respelled(setting.clock))
      && (SamePage(m, p, Verbatim()) <==> AllSpelledAsShown(setting.clock, m.page.events))
  {
    BothAnswerAsTheLog(setting, ops, worlds, i);
    AgentsStay(setting, ops, worlds, i);
    var page := LogStep(setting.byText, worlds[i].log, ops[i]).1.page;
    OnePageTwice(setting.clock, page, worlds[i + 1].pg.RowsOf(ops[i].agent));
  }

  lemma {:induction false} AgentsStay(setting: Setting, ops: seq<Op>, worlds: seq<World>, i: nat)
    requires Passes(setting, ops, worlds) && i < |worlds|
    ensures worlds[i].log.agents == setting.agents
  {
    if i > 0 {
      AgentsStay(setting, ops, worlds, i - 1);
      assert worlds[i] == Advance(setting, worlds[i - 1], ops[i - 1]);
    }
  }

  // ---- timestamps as the server writes them -------------------------------------------------------

  /** The request carries no timestamp, or one in the form the server writes. */
  ghost predicate CanonicalTime(op: Op) {
    Pg.Timestamp(op).Some? ==> Canonical(Pg.Timestamp(op).value)
  }

  ghost predicate AllCanonical(events: seq<MemoryEvent>) {
    forall k :: 0 <= k < |events| ==> Canonical(events[k].timestamp)
  }

  lemma {:induction false} LogStaysCanonical(setting: Setting, ops: seq<Op>, worlds: seq<World>, agent: string, i: nat)
    requires Passes(setting, ops, worlds) && i < |worlds|
    requires forall k :: 0 <= k < |ops| ==> CanonicalTime(ops[k])
    ensures AllCanonical(worlds[i].log.EventsOf(agent))
  {
    if i > 0 {
      LogStaysCanonical(setting, ops, worlds, agent, i - 1);
      assert worlds[i] == Advance(setting, worlds[i - 1], ops[i - 1]) && CanonicalTime(ops[i - 1]);
    }
  }

  lemma {:induction false} CanonicalEventsCompare(setting: Setting, events: seq<MemoryEvent>, filters: Filters,
          after: nat)
    requires setting.byText == AtOrAfterText() && KeepsCalendar(setting.clock)
    requires AllCanonical(events) && (filters.since.Some? ==> Canonical(filters.since.value))
    ensures ComparisonsAgree(setting, events, filters, after)
  {
    if filters.since.Some? {
      forall k: nat | k < |events|
        ensures setting.byText(events[k].timestamp, filters.since.value)
             == setting.ByInstant()(events[k].timestamp, filters.since.value)
      {
        CanonicalText(setting.clock, events[k].timestamp, filters.since.value);
      }
    }
  }

  /** A condition on the requests alone: in a run whose timestamps all have the form the server
      writes, as they do when clients leave them to the server, the two comparisons agree for every
      request, and every listing is the same to the letter. */
  lemma {:induction false} CanonicalRunsLookAlike(setting: Setting, ops: seq<Op>, worlds: seq<World>, i: nat)
    requires IsRun(setting, ops, worlds) && i < |ops| && Pg.ReadsDecimals(setting.toInt)
    requires setting.byText == AtOrAfterText() && KeepsCalendar(setting.clock)
    requires forall k :: 0 <= k < |ops| ==> CanonicalTime(ops[k])
    ensures AnswersComparable(setting, worlds[i], ops[i])
    ensures ops[i].ListEvents? && ops[i].agent in setting.agents ==>
              SamePage(MemoryReply(setting, worlds[i], ops[i]), PgReply(setting, worlds[i], ops[i]), Verbatim())
  {
    var op, events := ops[i], worlds[i].log.EventsOf(ops[i].agent);
    AgentsStay(setting, ops, worlds, i);
    LogStaysCanonical(setting, ops, worlds, op.agent, i);
    if op.ListEvents? && op.agent in setting.agents {
      assert CanonicalTime(op);
      CanonicalEventsCompare(setting, events, op.filters, op.after);
      SamePages(setting, ops, worlds, i);
      BothAnswerAsTheLog(setting, ops, worlds, i);
      ListedEventsAreCanonical(setting, worlds[i], op);
    }
  }

  lemma {:induction false} PagesAreCanonical(setting: Setting, events: seq<MemoryEvent>, filters: Filters, limit: nat,
          after: nat)
    requires after <= |events| && limit >= 1 && AllCanonical(events) && KeepsCalendar(setting.clock)
    ensures AllSpelledAsShown(setting.clock, PageOf(Remaining(setting.byText, events, filters, after), limit).events)
  {
    var tail, p := Numbered(events)[after..], Matching<nat>(setting.byText, filters);
    var listed := PageOf(Filter(tail, p), limit).events;
    FilterMembers(tail, p);
    forall k | 0 <= k < |listed|
      ensures SpelledAsShown(setting.clock, listed[k].event)
    {
      assert listed[k] == Filter(tail, p)[k];
      assert listed[k] in Filter(tail, p);
      assert Canonical(listed[k].event.timestamp);
      CanonicalText(setting.clock, listed[k].event.timestamp, listed[k].event.timestamp);
    }
  }

  lemma {:induction false} ListedEventsAreCanonical(setting: Setting, w: World, op: Op)
    requires op.ListEvents? && op.agent in w.log.agents && op.limit >= 1 && op.after <= |w.log.EventsOf(op.agent)|
    requires AllCanonical(w.log.EventsOf(op.agent)) && KeepsCalendar(setting.clock)
    requires MemoryReply(setting, w, op) == Render(LogStep(setting.byText, w.log, op).1, Memory.AsStored())
    ensures AllSpelledAsShown(setting.clock, MemoryReply(setting, w, op).page.events)
  {
    var events := w.log.EventsOf(op.agent);
    var page := PageOf(Remaining(setting.byText, events, op.filters, op.after), op.limit);
    assert MemoryReply(setting, w, op) == PageReply(RenderPage(page, Memory.AsStored()));
    PagesAreCanonical(setting, events, op.filters, op.limit, op.after);
  }

  // ---- cursors a client can have ------------------------------------------------------------------

  /** A listing that hands out the cursor of the agent's `after`-th event. */
  ghost predicate HandsOut(setting: Setting, w: World, op: Op, agent: string, filters: Filters, after: nat) {
    && op.ListEvents? && op.agent == agent && op.filters == filters
    && MemoryReply(setting, w, op).PageReply?
    && MemoryReply(setting, w, op).page.nextCursor == Some(EventIds.Show(after))
  }

  predicate Flushes(op: Op, agent: string) {
    op.Flush? && op.agent == agent
  }

  /** The cursor came with an earlier page for the same filters, and no flush has happened since. */
  ghost predicate HandedOut(setting: Setting, ops: seq<Op>, worlds: seq<World>, i: nat, agent: string, filters: Filters,
          after: nat)
    requires i <= |ops| < |worlds|
  {
    exists j :: 0 <= j < i
      && HandsOut(setting, worlds[j], ops[j], agent, filters, after)
      && forall k :: j < k < i ==> !Flushes(ops[k], agent)
  }

  /** The i-th request of a client that sends readable timestamps and only cursors it was handed out. */
  ghost predicate Polite(setting: Setting, ops: seq<Op>, worlds: seq<World>, i: nat)
    requires i < |ops| < |worlds|
  {
    var op := ops[i];
    && (op.AppendEvent? ==> op.serial >= worlds[i].pg.nextSerial)
    && Pg.Readable(setting.clock, op)
    && (op.ListEvents? ==>
          op.limit >= 1 && (op.after == 0 || HandedOut(setting, ops, worlds, i, op.agent, op.filters, op.after)))
  }

  lemma {:induction false} EventsGrow(setting: Setting, ops: seq<Op>, worlds: seq<World>, agent: string, j: nat, i: nat)
    requires Passes(setting, ops, worlds) && j <= i < |worlds|
    requires forall k :: j <= k < i ==> !Flushes(ops[k], agent)
    ensures worlds[j].log.EventsOf(agent) <= worlds[i].log.EventsOf(agent)
  {
    if j < i {
      EventsGrow(setting, ops, worlds, agent, j, i - 1);
      LogGrows(setting, worlds[i - 1].log, ops[i - 1], agent);
    }
  }

  lemma {:induction false} LogGrows(setting: Setting, log: Log, op: Op, agent: string)
    requires !Flushes(op, agent)
    ensures log.EventsOf(agent) <= LogAfter(setting, log, op).EventsOf(agent)
  {
  }

  lemma {:induction false} EventOfRemaining(setting: Setting, events: seq<MemoryEvent>, filters: Filters, start: nat,
          k: nat) returns (i: nat)
    requires start <= |events| && k < |Remaining(setting.byText, events, filters, start)|
    ensures start <= i < |events| && Remaining(setting.byText, events, filters, start)[k] == Stored(i + 1, events[i])
    ensures Matching<nat>(setting.byText, filters)(Stored(i + 1, events[i]))
  {
    var tail, p := Numbered(events)[start..], Matching<nat>(setting.byText, filters);
    var j := PositionOfPick(tail, p, k);
    i := start + j;
    assert tail[j] == Numbered(events)[i];
  }

  /** The cursor of a page names an event behind its start that passes the filters. */
  lemma {:induction false} NextCursorFits(setting: Setting, events: seq<MemoryEvent>, filters: Filters, limit: nat,
          start: nat)
    requires limit >= 1 && start <= |events|
    ensures
      var page := PageOf(Remaining(setting.byText, events, filters, start), limit);
      page.nextCursor.Some? ==>
        start < page.nextCursor.value && CursorFits(setting, events, filters, page.nextCursor.value)
  {
    var rest := Remaining(setting.byText, events, filters, start);
    if |rest| > limit {
      var i := EventOfRemaining(setting, events, filters, start, limit - 1);
    }
  }

  /** So the cursor a listing hands out may be sent back with the same filters. */
  lemma {:induction false} HandedOutCursorsAreUsable(setting: Setting, w: World, op: Op, agent: string,
          filters: Filters, after: nat)
    requires Memory.Represents(w.memory, w.log) && Admissible(setting, w, op)
    requires HandsOut(setting, w, op, agent, filters, after)
    ensures op.after < after && CursorFits(setting, w.log.EventsOf(agent), filters, after)
  {
    var page := PageOf(Remaining(setting.byText, w.log.EventsOf(agent), filters, op.after), op.limit);
    assert MemoryReply(setting, w, op) == PageReply(RenderPage(page, Memory.AsStored())) by {
      Memory.StepRefinesLog(setting.byText, w.memory, w.log, op);
    }
    NextCursorFits(setting, w.log.EventsOf(agent), filters, op.limit, op.after);
    EventIds.ShowInjective(page.nextCursor.value, after);
  }

  /** Every run in which clients send back only cursors handed out for the same filters since the
      last flush is a run of admissible requests. */
  lemma {:induction false} PoliteRunsAreAdmissible(setting: Setting, ops: seq<Op>, worlds: seq<World>)
    requires Passes(setting, ops, worlds) && Pg.ReadsDecimals(setting.toInt)
    requires forall i :: 0 <= i < |ops| ==> Polite(setting, ops, worlds, i)
    ensures IsRun(setting, ops, worlds)
  {
    AdmissibleSoFar(setting, ops, worlds, |ops|);
  }

  lemma {:induction false} AdmissibleSoFar(setting: Setting, ops: seq<Op>, worlds: seq<World>, n: nat)
    requires Passes(setting, ops, worlds) && Pg.ReadsDecimals(setting.toInt) && n <= |ops|
    requires forall i :: 0 <= i < |ops| ==> Polite(setting, ops, worlds, i)
    ensures forall i :: 0 <= i < n ==> Admissible(setting, worlds[i], ops[i])
  {
    if n > 0 {
      AdmissibleSoFar(setting, ops, worlds, n - 1);
      PoliteIsAdmissible(setting, ops, worlds, n - 1);
    }
  }

  lemma {:induction false} PoliteIsAdmissible(setting: Setting, ops: seq<Op>, worlds: seq<World>, i: nat)
    requires Passes(setting, ops, worlds) && Pg.ReadsDecimals(setting.toInt) && i < |ops|
    requires Polite(setting, ops, worlds, i)
    requires forall j :: 0 <= j < i ==> Admissible(setting, worlds[j], ops[j])
    ensures Admissible(setting, worlds[i], ops[i])
  {
    var op := ops[i];
    if op.ListEvents? && op.after > 0 {
      var j :| 0 <= j < i
        && HandsOut(setting, worlds[j], ops[j], op.agent, op.filters, op.after)
        && forall k :: j < k < i ==> !Flushes(ops[k], op.agent);
      RunStaysInStep(setting, ops, worlds, j);
      HandedOutCursorsAreUsable(setting, worlds[j], ops[j], op.agent, op.filters, op.after);
      EventsGrow(setting, ops, worlds, op.agent, j, i);
    }
  }
}
