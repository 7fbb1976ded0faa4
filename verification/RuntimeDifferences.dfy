/**
 Where the two agent runtimes part (agentcook/src/agentcook_app/services.py and
 agentcook/src/agentcook_app/runtime_pg.py): timestamps that cannot be read, timestamps in another
 spelling, cursors used with other filters, and long soul histories.  Each difference comes with the
 exact condition under which there is none, and with a run that shows it.
 */
module RuntimeDifferences {
  import opened Wrappers
  import opened Seqs
  import opened StableSort
  import opened AgentRuntime
  import opened Timestamps
  import opened RuntimeSimulation
  import Memory = InMemoryRuntime
  import Pg = PgRuntime

  // ---- what each runtime lists --------------------------------------------------------------------

  /** What a listing asks for, whatever its limit. */
  datatype Query = Query(agent: string, filters: Filters, after: nat) {
    function Request(limit: nat): Op {
      ListEvents(agent, filters, limit, after)
    }
  }

  /** A listing with a cursor that names an event of a known agent, if it has one. */
  ghost predicate Asks(w: World, q: Query) {
    q.agent in w.log.agents && q.after <= |w.log.EventsOf(q.agent)|
  }

  /** A reply that shows a page of the log, names aside. */
  predicate Shows(reply: Reply<string>, page: Page<nat>, show: MemoryEvent -> MemoryEvent) {
    && reply.PageReply?
    && Map(reply.page.events, Seen(Verbatim())) == Map(page.events, Seen(show))
    && (reply.page.nextCursor.Some? <==> page.nextCursor.Some?)
  }

  lemma {:induction false} ShownSize(reply: Reply<string>, page: Page<nat>, show: MemoryEvent -> MemoryEvent)
    requires Shows(reply, page, show)
    ensures |reply.page.events| == |page.events|
  {
    assert |Map(reply.page.events, Seen(Verbatim()))| == |Map(page.events, Seen(show))|;
  }

  /** What the in-memory runtime finds: the matching events behind a fitting cursor, nothing behind
      any other. */
  function Found(setting: Setting, events: seq<MemoryEvent>, filters: Filters, after: nat): seq<Stored<nat>> {
    if CursorFits(setting, events, filters, after) then Remaining(setting.byText, events, filters, after) else []
  }

  lemma {:induction false} MemoryListing(setting: Setting, w: World, q: Query, limit: nat)
    requires Memory.Represents(w.memory, w.log) && Asks(w, q) && limit >= 1
    ensures Shows(MemoryReply(setting, w, q.Request(limit)),
                  PageOf(Found(setting, w.log.EventsOf(q.agent), q.filters, q.after), limit), Verbatim())
  {
    var events := w.log.EventsOf(q.agent);
    if CursorFits(setting, events, q.filters, q.after) {
      Memory.ListingRefinesLog(setting.byText, w.memory, w.log, q.agent, q.filters, limit, q.after);
    } else {
      Memory.CursorIsLost(setting.byText, events, q.filters, q.after);
    }
  }

  /** Postgres finds them behind any cursor, and shows them with timestamps printed anew. */
  lemma {:induction false} PgListing(setting: Setting, w: World, q: Query, limit: nat)
    requires InStep(setting, w) && Asks(w, q) && limit >= 1 && Pg.ReadsDecimals(setting.toInt)
    requires Pg.Readable(setting.clock, q.Request(limit))
    ensures Shows(PgReply(setting, w, q.Request(limit)),
                  PageOf(Remaining(setting.ByInstant(), w.log.EventsOf(q.agent), q.filters, q.after), limit),
                  Pg.Respelled(setting.clock))
  {
    Pg.ListingRefinesLog(setting.clock, setting.toInt, w.pg, w.log, q.agent, q.filters, limit, q.after);
  }

  predicate SameContent(a: Page<nat>, b: Page<nat>, show: MemoryEvent -> MemoryEvent, show': MemoryEvent -> MemoryEvent)
  {
    Map(a.events, Seen(show)) == Map(b.events, Seen(show')) && (a.nextCursor.Some? <==> b.nextCursor.Some?)
  }

  /** The two runtimes list alike, with the events of the in-memory one read through `show`. */
  ghost predicate Alike(setting: Setting, w: World, q: Query, limit: nat, show: MemoryEvent -> MemoryEvent) {
    SamePage(MemoryReply(setting, w, q.Request(limit)), PgReply(setting, w, q.Request(limit)), show)
  }

  lemma {:induction false} ShownAlike(m: Reply<string>, p: Reply<string>, a: Page<nat>, b: Page<nat>,
          show: MemoryEvent -> MemoryEvent, show': MemoryEvent -> MemoryEvent)
    requires Shows(m, a, Verbatim()) && Shows(p, b, show')
    ensures SamePage(m, p, show) <==> SameContent(a, b, show, show')
  {
    assert |Map(m.page.events, Seen(Verbatim()))| == |Map(a.events, Seen(Verbatim()))|;
    forall k | 0 <= k < |a.events|
      ensures m.page.events[k].event == a.events[k].event
    {
      assert Map(m.page.events, Seen(Verbatim()))[k] == Map(a.events, Seen(Verbatim()))[k];
    }
    assert Map(m.page.events, Seen(show)) == Map(a.events, Seen(show));
  }

  /** They do exactly when `since` can be read and the two pages of the log have the same content. */
  lemma {:induction false} AlikeIffSameContent(setting: Setting, w: World, q: Query, limit: nat,
          show: MemoryEvent -> MemoryEvent)
    requires InStep(setting, w) && Asks(w, q) && limit >= 1 && Pg.ReadsDecimals(setting.toInt)
    ensures
      var events := w.log.EventsOf(q.agent);
      Alike(setting, w, q, limit, show)
      <==>
      && Pg.Readable(setting.clock, q.Request(limit))
      && SameContent(PageOf(Found(setting, events, q.filters, q.after), limit),
                     PageOf(Remaining(setting.ByInstant(), events, q.filters, q.after), limit),
                     show, Pg.Respelled(setting.clock))
  {
    if Pg.Readable(setting.clock, q.Request(limit)) {
      MemoryListing(setting, w, q, limit);
      PgListing(setting, w, q, limit);
      var events, request := w.log.EventsOf(q.agent), q.Request(limit);
      ShownAlike(MemoryReply(setting, w, request), PgReply(setting, w, request),
                 PageOf(Found(setting, events, q.filters, q.after), limit),
                 PageOf(Remaining(setting.ByInstant(), events, q.filters, q.after), limit),
                 show, Pg.Respelled(setting.clock));
    }
  }

  // ---- when they list alike -----------------------------------------------------------------------

  ghost predicate NothingMatches(atOrAfter: (string, string) -> bool, events: seq<MemoryEvent>, filters: Filters,
          after: nat)
  {
    forall k :: after <= k < |events| ==> !Matches(atOrAfter, filters, events[k])
  }

  lemma {:induction false} RestIsEmptyIff(atOrAfter: (string, string) -> bool, events: seq<MemoryEvent>,
          filters: Filters, after: nat)
    requires after <= |events|
    ensures Remaining(atOrAfter, events, filters, after) == [] <==> NothingMatches(atOrAfter, events, filters, after)
  {
    var tail, p := Numbered(events)[after..], Matching<nat>(atOrAfter, filters);
    FilterMembers(tail, p);
    if Filter(tail, p) == [] {
      forall k | after <= k < |events|
        ensures !Matches(atOrAfter, filters, events[k])
      {
        assert tail[k - after] in tail;
      }
    } else {
      var x := Filter(tail, p)[0];
      assert x in Filter(tail, p);
      assert x in tail && p(x);
      var k :| 0 <= k < |tail| && tail[k] == x;
      assert Matches(atOrAfter, filters, events[after + k]);
    }
  }

  /** Every matching event behind the cursor reads the same through `show` and as Postgres shows it. */
  ghost predicate MatchesReadAlike(setting: Setting, events: seq<MemoryEvent>, q: Query,
          show: MemoryEvent -> MemoryEvent)
  {
    forall k :: q.after <= k < |events| && Matches(setting.byText, q.filters, events[k]) ==>
      show(events[k]) == Pg.Respelled(setting.clock)(events[k])
  }

  /** An event that reads like another as Postgres shows it has that one's instant and kind. */
  ghost predicate Faithful(clock: Clock, show: MemoryEvent -> MemoryEvent) {
    forall e: MemoryEvent, e': MemoryEvent ::
      clock.Reads(e.timestamp) && clock.Reads(e'.timestamp) && show(e) == Pg.Respelled(clock)(e') ==>
        clock.At(e.timestamp) == clock.At(e'.timestamp) && e.kind == e'.kind
  }

  lemma {:induction false} BothAreFaithful(clock: Clock)
    requires ReadsBack(clock)
    ensures Faithful(clock, Verbatim()) && Faithful(clock, Pg.Respelled(clock))
  {
    forall text | clock.Reads(text)
      ensures clock.At(clock.Shown(text)) == clock.At(text)
    {
    }
  }

  /** What the in-memory list holds passes Postgres's test too, if the lists read alike. */
  lemma {:induction false} ReadAlikePasses(setting: Setting, q: Query, tail: seq<Stored<nat>>,
          show: MemoryEvent -> MemoryEvent, i: nat)
    requires Faithful(setting.clock, show)
    requires forall k :: 0 <= k < |tail| ==> setting.clock.Reads(tail[k].event.timestamp)
    requires i < |Filter(tail, Matching(setting.byText, q.filters))|
    requires Map(Filter(tail, Matching(setting.byText, q.filters)), Seen(show))
          == Map(Filter(tail, Matching(setting.ByInstant(), q.filters)), Seen(Pg.Respelled(setting.clock)))
    ensures
      var e := Filter(tail, Matching(setting.byText, q.filters))[i].event;
      Matches(setting.ByInstant(), q.filters, e)
  {
    var p, p' := Matching<nat>(setting.byText, q.filters), Matching<nat>(setting.ByInstant(), q.filters);
    var a, b := Filter(tail, p), Filter(tail, p');
    FilterMembers(tail, p);
    FilterMembers(tail, p');
    assert |b| == |Map(b, Seen(Pg.Respelled(setting.clock)))| == |Map(a, Seen(show))|;
    assert a[i] in a && b[i] in b;
    assert Map(a, Seen(show))[i] == Map(b, Seen(Pg.Respelled(setting.clock)))[i];
    assert show(a[i].event) == Pg.Respelled(setting.clock)(b[i].event);
  }

  /** So the two tests agree. */
  lemma {:induction false} SameTests(setting: Setting, q: Query, tail: seq<Stored<nat>>,
          show: MemoryEvent -> MemoryEvent)
    requires Faithful(setting.clock, show)
    requires forall k :: 0 <= k < |tail| ==> setting.clock.Reads(tail[k].event.timestamp)
    requires Map(Filter(tail, Matching(setting.byText, q.filters)), Seen(show))
          == Map(Filter(tail, Matching(setting.ByInstant(), q.filters)), Seen(Pg.Respelled(setting.clock)))
    ensures forall k :: 0 <= k < |tail| ==>
              Matches(setting.byText, q.filters, tail[k].event)
                == Matches(setting.ByInstant(), q.filters, tail[k].event)
  {
    var p, p' := Matching<nat>(setting.byText, q.filters), Matching<nat>(setting.ByInstant(), q.filters);
    var a, b := Filter(tail, p), Filter(tail, p');
    FilterMembers(tail, p);
    assert |b| == |Map(b, Seen(Pg.Respelled(setting.clock)))| == |Map(a, Seen(show))| == |a|;
    forall k | 0 <= k < |tail| && p(tail[k])
      ensures p'(tail[k])
    {
      assert tail[k] in a;
      var i :| 0 <= i < |a| && a[i] == tail[k];
      ReadAlikePasses(setting, q, tail, show, i);
    }
    FilterNarrower(tail, p, p');
    forall k | 0 <= k < |tail|
      ensures Matches(setting.byText, q.filters, tail[k].event)
           == Matches(setting.ByInstant(), q.filters, tail[k].event)
    {
      assert p(tail[k]) == p'(tail[k]);
    }
  }

  lemma {:induction false} SelectedReadsAlike(tail: seq<Stored<nat>>, p: Stored<nat> -> bool,
          show: MemoryEvent -> MemoryEvent, show': MemoryEvent -> MemoryEvent, k: nat)
    requires k < |tail| && p(tail[k])
    requires Map(Filter(tail, p), Seen(show)) == Map(Filter(tail, p), Seen(show'))
    ensures show(tail[k].event) == show'(tail[k].event)
  {
    var a := Filter(tail, p);
    FilterMembers(tail, p);
    assert tail[k] in a;
    var i :| 0 <= i < |a| && a[i] == tail[k];
    assert Map(a, Seen(show))[i] == Map(a, Seen(show'))[i];
  }

  lemma {:induction false} TailHolds(events: seq<MemoryEvent>, after: nat)
    requires after <= |events|
    ensures forall k :: 0 <= k < |events| - after ==> Numbered(events)[after..][k].event == events[after + k]
  {
  }

  lemma {:induction false} TestsOnTail(setting: Setting, events: seq<MemoryEvent>, q: Query)
    requires q.after <= |events|
    requires
      var tail := Numbered(events)[q.after..];
      forall k :: 0 <= k < |tail| ==>
        Matches(setting.byText, q.filters, tail[k].event) == Matches(setting.ByInstant(), q.filters, tail[k].event)
    ensures ComparisonsAgree(setting, events, q.filters, q.after)
  {
    var tail := Numbered(events)[q.after..];
    forall k | q.after <= k < |events|
      ensures Matches(setting.byText, q.filters, events[k]) == Matches(setting.ByInstant(), q.filters, events[k])
    {
      assert tail[k - q.after].event == events[k];
    }
  }

  /** Lists that read alike hold the same events. */
  lemma {:induction false} SameEvents(setting: Setting, events: seq<MemoryEvent>, q: Query,
          show: MemoryEvent -> MemoryEvent)
    requires q.after <= |events| && Pg.AllReadable(setting.clock, events) && Faithful(setting.clock, show)
    requires Map(Remaining(setting.byText, events, q.filters, q.after), Seen(show))
          == Map(Remaining(setting.ByInstant(), events, q.filters, q.after), Seen(Pg.Respelled(setting.clock)))
    ensures ComparisonsAgree(setting, events, q.filters, q.after)
  {
    TailHolds(events, q.after);
    SameTests(setting, q, Numbered(events)[q.after..], show);
    TestsOnTail(setting, events, q);
  }

  lemma {:induction false} RemainingReadsAlike(setting: Setting, events: seq<MemoryEvent>, q: Query,
          show: MemoryEvent -> MemoryEvent)
    requires q.after <= |events|
    requires Map(Remaining(setting.byText, events, q.filters, q.after), Seen(show))
          == Map(Remaining(setting.byText, events, q.filters, q.after), Seen(Pg.Respelled(setting.clock)))
    ensures MatchesReadAlike(setting, events, q, show)
  {
    var tail := Numbered(events)[q.after..];
    forall k | q.after <= k < |events| && Matches(setting.byText, q.filters, events[k])
      ensures show(events[k]) == Pg.Respelled(setting.clock)(events[k])
    {
      assert tail[k - q.after].event == events[k];
      SelectedReadsAlike(tail, Matching(setting.byText, q.filters), show, Pg.Respelled(setting.clock), k - q.after);
    }
  }

  /** And each of them is read alike. */
  lemma {:induction false} SameSelection(setting: Setting, events: seq<MemoryEvent>, q: Query,
          show: MemoryEvent -> MemoryEvent)
    requires q.after <= |events| && Pg.AllReadable(setting.clock, events) && Faithful(setting.clock, show)
    requires Map(Remaining(setting.byText, events, q.filters, q.after), Seen(show))
          == Map(Remaining(setting.ByInstant(), events, q.filters, q.after), Seen(Pg.Respelled(setting.clock)))
    ensures ComparisonsAgree(setting, events, q.filters, q.after) && MatchesReadAlike(setting, events, q, show)
  {
    SameEvents(setting, events, q, show);
    SameRemaining(setting, events, q.filters, q.after);
    RemainingReadsAlike(setting, events, q, show);
  }

  /** And the other way round, page by page. */
  lemma {:induction false} SameSelectionReadsAlike(setting: Setting, events: seq<MemoryEvent>, q: Query, limit: nat,
          show: MemoryEvent -> MemoryEvent)
    requires q.after <= |events| && limit >= 1
    requires ComparisonsAgree(setting, events, q.filters, q.after) && MatchesReadAlike(setting, events, q, show)
    ensures SameContent(PageOf(Remaining(setting.byText, events, q.filters, q.after), limit),
                        PageOf(Remaining(setting.ByInstant(), events, q.filters, q.after), limit),
                        show, Pg.Respelled(setting.clock))
  {
    SameRemaining(setting, events, q.filters, q.after);
    var tail, p := Numbered(events)[q.after..], Matching<nat>(setting.byText, q.filters);
    var page := PageOf(Filter(tail, p), limit).events;
    FilterMembers(tail, p);
    forall i | 0 <= i < |page|
      ensures show(page[i].event) == Pg.Respelled(setting.clock)(page[i].event)
    {
      assert page[i] == Filter(tail, p)[i];
      assert page[i] in Filter(tail, p);
      assert page[i] in tail && p(page[i]);
    }
  }

  ghost predicate AlikeForEveryLimit(setting: Setting, w: World, q: Query, show: MemoryEvent -> MemoryEvent) {
    forall limit: nat :: limit >= 1 ==> Alike(setting, w, q, limit, show)
  }

  lemma {:induction false} FoundAlike(setting: Setting, w: World, q: Query, limit: nat,
          show: MemoryEvent -> MemoryEvent)
    requires InStep(setting, w) && Asks(w, q) && limit >= 1 && Pg.ReadsDecimals(setting.toInt)
    requires Pg.Readable(setting.clock, q.Request(limit))
    requires CursorFits(setting, w.log.EventsOf(q.agent), q.filters, q.after)
    requires ComparisonsAgree(setting, w.log.EventsOf(q.agent), q.filters, q.after)
    requires MatchesReadAlike(setting, w.log.EventsOf(q.agent), q, show)
    ensures Alike(setting, w, q, limit, show)
  {
    SameSelectionReadsAlike(setting, w.log.EventsOf(q.agent), q, limit, show);
    AlikeIffSameContent(setting, w, q, limit, show);
  }

  lemma {:induction false} FoundAlikeIff(setting: Setting, w: World, q: Query, show: MemoryEvent -> MemoryEvent)
    requires InStep(setting, w) && Asks(w, q) && Pg.ReadsDecimals(setting.toInt) && Faithful(setting.clock, show)
    requires Pg.Readable(setting.clock, q.Request(1))
    requires CursorFits(setting, w.log.EventsOf(q.agent), q.filters, q.after)
    ensures AlikeForEveryLimit(setting, w, q, show)
       <==> (ComparisonsAgree(setting, w.log.EventsOf(q.agent), q.filters, q.after)
             && MatchesReadAlike(setting, w.log.EventsOf(q.agent), q, show))
  {
    var events := w.log.EventsOf(q.agent);
    assert Pg.Holds(setting.clock, w.pg.RowsOf(q.agent), events);
    if ComparisonsAgree(setting, events, q.filters, q.after) && MatchesReadAlike(setting, events, q, show) {
      forall limit: nat | limit >= 1
        ensures Alike(setting, w, q, limit, show)
      {
        FoundAlike(setting, w, q, limit, show);
      }
    }
    if AlikeForEveryLimit(setting, w, q, show) {
      var limit := |events| + 1;
      assert Alike(setting, w, q, limit, show);
      AlikeIffSameContent(setting, w, q, limit, show);
      WholePage(Remaining(setting.byText, events, q.filters, q.after), limit);
      WholePage(Remaining(setting.ByInstant(), events, q.filters, q.after), limit);
      SameSelection(setting, events, q, show);
    }
  }

  /** A page large enough for everything. */
  lemma {:induction false} WholePage(rest: seq<Stored<nat>>, limit: nat)
    requires |rest| < limit
    ensures PageOf(rest, limit) == Page(rest, None)
  {
  }

  lemma {:induction false} LostAlikeIff(setting: Setting, w: World, q: Query, limit: nat,
          show: MemoryEvent -> MemoryEvent)
    requires InStep(setting, w) && Asks(w, q) && limit >= 1 && Pg.ReadsDecimals(setting.toInt)
    requires Pg.Readable(setting.clock, q.Request(limit))
    requires !CursorFits(setting, w.log.EventsOf(q.agent), q.filters, q.after)
    ensures Alike(setting, w, q, limit, show)
       <==> NothingMatches(setting.ByInstant(), w.log.EventsOf(q.agent), q.filters, q.after)
  {
    AlikeIffSameContent(setting, w, q, limit, show);
    var rest := Remaining(setting.ByInstant(), w.log.EventsOf(q.agent), q.filters, q.after);
    RestIsEmptyIff(setting.ByInstant(), w.log.EventsOf(q.agent), q.filters, q.after);
    assert |Map(PageOf(rest, limit).events, Seen(Pg.Respelled(setting.clock)))| == |PageOf(rest, limit).events|;
  }

  lemma {:induction false} AlikeForEveryLimitIff(setting: Setting, w: World, q: Query, show: MemoryEvent -> MemoryEvent)
    requires InStep(setting, w) && Asks(w, q) && Pg.ReadsDecimals(setting.toInt) && Faithful(setting.clock, show)
    ensures
      var events := w.log.EventsOf(q.agent);
      AlikeForEveryLimit(setting, w, q, show)
      <==>
      && Pg.Readable(setting.clock, q.Request(1))
      && if CursorFits(setting, events, q.filters, q.after)
         then ComparisonsAgree(setting, events, q.filters, q.after) && MatchesReadAlike(setting, events, q, show)
         else NothingMatches(setting.ByInstant(), events, q.filters, q.after)
  {
    if !Pg.Readable(setting.clock, q.Request(1)) {
      AlikeIffSameContent(setting, w, q, 1, show);
      assert !Alike(setting, w, q, 1, show);
    } else if CursorFits(setting, w.log.EventsOf(q.agent), q.filters, q.after) {
      FoundAlikeIff(setting, w, q, show);
    } else {
      forall limit: nat | limit >= 1
        ensures Alike(setting, w, q, limit, show)
           <==> NothingMatches(setting.ByInstant(), w.log.EventsOf(q.agent), q.filters, q.after)
      {
        LostAlikeIff(setting, w, q, limit, show);
      }
      assert Alike(setting, w, q, 1, show)
        <==> NothingMatches(setting.ByInstant(), w.log.EventsOf(q.agent), q.filters, q.after);
    }
  }

  /** When the two runtimes list the same events, up to the spelling of their timestamps, for any
      filters and any cursor that names an event: `since` can be read, and behind a cursor whose event
      passes the filters, and without one, the two comparisons agree on the events behind it; behind
      any other cursor Postgres finds nothing either. */
  lemma {:induction false} ListingsAgreeIff(setting: Setting, w: World, q: Query)
    requires InStep(setting, w) && Asks(w, q) && Pg.ReadsDecimals(setting.toInt) && ReadsBack(setting.clock)
    ensures
      var events := w.log.EventsOf(q.agent);
      AlikeForEveryLimit(setting, w, q, Pg.Respelled(setting.clock))
      <==>
      && Pg.Readable(setting.clock, q.Request(1))
      && if CursorFits(setting, events, q.filters, q.after)
         then ComparisonsAgree(setting, events, q.filters, q.after)
         else NothingMatches(setting.ByInstant(), events, q.filters, q.after)
  {
    BothAreFaithful(setting.clock);
    AlikeForEveryLimitIff(setting, w, q, Pg.Respelled(setting.clock));
  }

  ghost predicate MatchesSpelledAsShown(setting: Setting, events: seq<MemoryEvent>, q: Query) {
    forall k :: q.after <= k < |events| && Matches(setting.byText, q.filters, events[k]) ==>
      SpelledAsShown(setting.clock, events[k])
  }

  /** When they list the same events to the letter: in addition every matching event behind the cursor
      was sent with its timestamp spelled as the database prints it. */
  lemma {:induction false} ListingsEqualIff(setting: Setting, w: World, q: Query)
    requires InStep(setting, w) && Asks(w, q) && Pg.ReadsDecimals(setting.toInt) && ReadsBack(setting.clock)
    ensures
      var events := w.log.EventsOf(q.agent);
      AlikeForEveryLimit(setting, w, q, Verbatim())
      <==>
      && Pg.Readable(setting.clock, q.Request(1))
      && if CursorFits(setting, events, q.filters, q.after)
         then ComparisonsAgree(setting, events, q.filters, q.after) && MatchesSpelledAsShown(setting, events, q)
         else NothingMatches(setting.ByInstant(), events, q.filters, q.after)
  {
    BothAreFaithful(setting.clock);
    AlikeForEveryLimitIff(setting, w, q, Verbatim());
    forall e: MemoryEvent
      ensures Verbatim()(e) == Pg.Respelled(setting.clock)(e) <==> SpelledAsShown(setting.clock, e)
    {
    }
  }

  /** A cursor used with other filters, comparisons aside: the table scan simply goes on behind the
      row, while the in-memory search looks for the cursor among the filtered events.  The pages show
      the same events exactly when `since` can be read, and the cursor's event passes the new filters
      or nothing behind it does. */
  lemma {:induction false} ChangedFiltersAgreeIff(setting: Setting, w: World, q: Query, limit: nat)
    requires InStep(setting, w) && Asks(w, q) && limit >= 1 && q.after >= 1 && Pg.ReadsDecimals(setting.toInt)
    requires ComparisonsAgree(setting, w.log.EventsOf(q.agent), q.filters, q.after)
    ensures
      var events := w.log.EventsOf(q.agent);
      Alike(setting, w, q, limit, Pg.Respelled(setting.clock))
      <==>
      && Pg.Readable(setting.clock, q.Request(limit))
      && (|| Matches(setting.byText, q.filters, events[q.after - 1])
          || NothingMatches(setting.ByInstant(), events, q.filters, q.after))
  {
    if !Pg.Readable(setting.clock, q.Request(limit)) {
      AlikeIffSameContent(setting, w, q, limit, Pg.Respelled(setting.clock));
    } else if CursorFits(setting, w.log.EventsOf(q.agent), q.filters, q.after) {
      assert MatchesReadAlike(setting, w.log.EventsOf(q.agent), q, Pg.Respelled(setting.clock));
      FoundAlike(setting, w, q, limit, Pg.Respelled(setting.clock));
    } else {
      LostAlikeIff(setting, w, q, limit, Pg.Respelled(setting.clock));
    }
  }

  // ---- other spellings ----------------------------------------------------------------------------

  const MOMENT: string := "2026-01-01T12:00:00"
  const STORED: string := MOMENT + "+00:00"
  const ASKED: string := MOMENT + "Z"

  /** Two spellings of one moment: the server writes the first, a client may use the second. */
  lemma {:induction false} TwoSpellings(clock: Clock)
    requires KeepsCalendar(clock) && clock.parse(ASKED) == clock.parse(STORED)
    ensures clock.Reads(STORED) && clock.Reads(ASKED)
    ensures clock.Shown(STORED) == STORED && clock.Shown(ASKED) == STORED && STORED != ASKED
    ensures !AtOrAfterText()(STORED, ASKED) && clock.AtOrAfter()(STORED, ASKED)
  {
    NoonIsCanonical();
    CanonicalText(clock, STORED, STORED);
    TextLeqBehindPrefix(MOMENT, "Z", "+00:00");
    assert STORED[|MOMENT|] == '+' && ASKED[|MOMENT|] == 'Z';
  }

  lemma {:induction false} TwoRequests(setting: Setting, a: Op, b: Op) returns (ops: seq<Op>, worlds: seq<World>)
    ensures Passes(setting, ops, worlds) && ops == [a, b]
    ensures worlds[0] == Start(setting) && worlds[1] == Advance(setting, Start(setting), a)
  {
    ops := [a, b];
    var w1 := Advance(setting, Start(setting), a);
    worlds := [Start(setting), w1, Advance(setting, w1, b)];
  }

  lemma {:induction false} Everything(atOrAfter: (string, string) -> bool, event: MemoryEvent)
    ensures Remaining(atOrAfter, [event], Filters(None, None), 0) == [Stored(1, event)]
  {
    assert Numbered([event])[0..] == [Stored(1, event)];
  }

  /** A run that stores one event and then lists. */
  lemma {:induction false} StoreAndList(setting: Setting, event: MemoryEvent, q: Query)
    returns (ops: seq<Op>, worlds: seq<World>)
    requires q.agent in setting.agents && q.after == 0 && Pg.ReadsDecimals(setting.toInt)
    requires setting.clock.Reads(event.timestamp) && Pg.Readable(setting.clock, q.Request(50))
    ensures IsRun(setting, ops, worlds) && |ops| == 2 && ops[1] == q.Request(50)
    ensures InStep(setting, worlds[1]) && Asks(worlds[1], q) && worlds[1].log.EventsOf(q.agent) == [event]
  {
    var append := AppendEvent(q.agent, event, 1);
    ops, worlds := TwoRequests(setting, append, q.Request(50));
    StartIsInStep(setting);
    AdvanceInStep(setting, Start(setting), append);
  }

  /** A run in which the comparisons differ: an event is stored at a moment and listed from that
      moment on, spelled in the other way.  Postgres returns it, the in-memory runtime does not. */
  lemma {:induction false} SpellingMatters(setting: Setting, agent: string, content: string)
    returns (ops: seq<Op>, worlds: seq<World>)
    requires setting.byText == AtOrAfterText() && KeepsCalendar(setting.clock)
    requires setting.clock.parse(ASKED) == setting.clock.parse(STORED)
    requires agent in setting.agents && Pg.ReadsDecimals(setting.toInt)
    ensures IsRun(setting, ops, worlds) && |ops| == 2 && ops[1].ListEvents?
    ensures
      var m, p := MemoryReply(setting, worlds[1], ops[1]), PgReply(setting, worlds[1], ops[1]);
      && m.PageReply? && p.PageReply? && |m.page.events| == 0 && |p.page.events| == 1
  {
    var event, q := MemoryEvent(STORED, "note", content, None, map[]), Query(agent, Filters(Some(ASKED), None), 0);
    TwoSpellings(setting.clock);
    ops, worlds := StoreAndList(setting, event, q);
    assert !Matches(setting.byText, q.filters, event) && Matches(setting.ByInstant(), q.filters, event);
    RestIsEmptyIff(setting.byText, [event], q.filters, 0);
    assert Numbered([event])[0..] == [Stored(1, event)];
    MemoryListing(setting, worlds[1], q, 50);
    PgListing(setting, worlds[1], q, 50);
    ShownSize(MemoryReply(setting, worlds[1], ops[1]), PageOf(Found(setting, [event], q.filters, 0), 50), Verbatim());
    ShownSize(PgReply(setting, worlds[1], ops[1]),
              PageOf(Remaining(setting.ByInstant(), [event], q.filters, 0), 50), Pg.Respelled(setting.clock));
  }

  /** A run in which they agree and the listings still differ: without filters one runtime returns the
      timestamp as it was sent, the other prints it anew. */
  lemma {:induction false} SpellingShows(setting: Setting, agent: string, content: string)
    returns (ops: seq<Op>, worlds: seq<World>)
    requires KeepsCalendar(setting.clock) && setting.clock.parse(ASKED) == setting.clock.parse(STORED)
    requires agent in setting.agents && Pg.ReadsDecimals(setting.toInt)
    ensures IsRun(setting, ops, worlds) && |ops| == 2 && ops[1].ListEvents?
    ensures AnswersComparable(setting, worlds[1], ops[1])
    ensures
      var m, p := MemoryReply(setting, worlds[1], ops[1]), PgReply(setting, worlds[1], ops[1]);
      && m.PageReply? && p.PageReply? && |m.page.events| == |p.page.events| == 1
      && m.page.events[0].event.timestamp == ASKED && p.page.events[0].event.timestamp == STORED
  {
    var event, q := MemoryEvent(ASKED, "note", content, None, map[]), Query(agent, Filters(None, None), 0);
    TwoSpellings(setting.clock);
    ops, worlds := StoreAndList(setting, event, q);
    MemoryListing(setting, worlds[1], q, 50);
    PgListing(setting, worlds[1], q, 50);
    Everything(setting.byText, event);
    Everything(setting.ByInstant(), event);
    ShownFirst(MemoryReply(setting, worlds[1], ops[1]), Page([Stored(1, event)], None), Verbatim());
    ShownFirst(PgReply(setting, worlds[1], ops[1]), Page([Stored(1, event)], None), Pg.Respelled(setting.clock));
  }

  lemma {:induction false} ShownFirst(reply: Reply<string>, page: Page<nat>, show: MemoryEvent -> MemoryEvent)
    requires Shows(reply, page, show) && |page.events| == 1
    ensures |reply.page.events| == 1 && reply.page.events[0].event == show(page.events[0].event)
  {
    ShownSize(reply, page, show);
    assert Map(reply.page.events, Seen(Verbatim()))[0] == Map(page.events, Seen(show))[0];
  }

  // ---- timestamps that cannot be read -------------------------------------------------------------

  /** A request that would be admissible if its timestamp were readable keeps both runtimes in step
      with the log unless it stores an event whose timestamp is not. */
  lemma {:induction false} StaysInStepIff(setting: Setting, w: World, op: Op)
    requires InStep(setting, w) && Pg.ReadsDecimals(setting.toInt)
    requires op.AppendEvent? ==> op.serial >= w.pg.nextSerial
    requires op.ListEvents? && op.agent in w.log.agents ==>
      op.limit >= 1 && CursorFits(setting, w.log.EventsOf(op.agent), op.filters, op.after)
    ensures InStep(setting, Advance(setting, w, op))
       <==> !(op.AppendEvent? && op.agent in w.log.agents && !setting.clock.Reads(op.event.timestamp))
    ensures op.agent in w.log.agents && !Pg.Readable(setting.clock, op) ==>
              && Advance(setting, w, op).pg == w.pg
              && PgReply(setting, w, op) == Failed(BadTimestamp(Pg.Timestamp(op).value))
  {
    if op.agent !in w.log.agents || Pg.Readable(setting.clock, op) {
      AdvanceInStep(setting, w, op);
    } else if op.AppendEvent? {
      var events := w.log.EventsOf(op.agent) + [op.event];
      var next := Advance(setting, w, op);
      assert next.log.EventsOf(op.agent) == events && events[|events| - 1] == op.event;
      assert !Pg.AllReadable(setting.clock, events);
      assert !Pg.Holds(setting.clock, next.pg.RowsOf(op.agent), next.log.EventsOf(op.agent));
    } else {
      Memory.StepRefinesLog(setting.byText, w.memory, w.log, op);
    }
  }

  const UNREADABLE: string := "yesterday"

  lemma {:induction false} OneStoresOneRefuses(setting: Setting, w: World, op: Op)
    requires InStep(setting, w) && op.AppendEvent? && op.agent in w.log.agents
    requires !setting.clock.Reads(op.event.timestamp)
    ensures
      var next := Advance(setting, w, op);
      && Memory.Represents(next.memory, next.log) && next.pg == w.pg
      && next.log.EventsOf(op.agent) == w.log.EventsOf(op.agent) + [op.event]
    ensures MemoryReply(setting, w, op).EventReply?
    ensures PgReply(setting, w, op) == Failed(BadTimestamp(op.event.timestamp))
  {
    Memory.StepRefinesLog(setting.byText, w.memory, w.log, op);
  }

  lemma {:induction false} ListsTheOne(setting: Setting, w: World, agent: string, event: MemoryEvent)
    requires Memory.Represents(w.memory, w.log) && agent in w.log.agents && w.log.EventsOf(agent) == [event]
    ensures
      var m := MemoryReply(setting, w, ListEvents(agent, Filters(None, None), 50, 0));
      m.PageReply? && |m.page.events| == 1
  {
    Everything(setting.byText, event);
    MemoryListing(setting, w, Query(agent, Filters(None, None), 0), 50);
    ShownSize(MemoryReply(setting, w, ListEvents(agent, Filters(None, None), 50, 0)),
              PageOf([Stored(1, event)], 50), Verbatim());
  }

  lemma {:induction false} ListsNothing(setting: Setting, w: World, agent: string)
    requires agent in w.pg.agents && w.pg.eventRows == []
    ensures
      var p := PgReply(setting, w, ListEvents(agent, Filters(None, None), 50, 0));
      p.PageReply? && |p.page.events| == 0
  {
  }

  /** Such a run: one runtime stores the event and lists it, the other refuses it and lists nothing. */
  lemma {:induction false} UnreadableTimestampSplits(setting: Setting, agent: string, content: string)
    returns (ops: seq<Op>, worlds: seq<World>)
    requires agent in setting.agents && Pg.ReadsDecimals(setting.toInt) && !setting.clock.Reads(UNREADABLE)
    ensures Passes(setting, ops, worlds) && |ops| == 2 && ops[0].AppendEvent? && ops[1].ListEvents?
    ensures MemoryReply(setting, worlds[0], ops[0]).EventReply?
    ensures PgReply(setting, worlds[0], ops[0]) == Failed(BadTimestamp(UNREADABLE))
    ensures
      var m, p := MemoryReply(setting, worlds[1], ops[1]), PgReply(setting, worlds[1], ops[1]);
      && m.PageReply? && p.PageReply? && |m.page.events| == 1 && |p.page.events| == 0
  {
    var event := MemoryEvent(UNREADABLE, "note", content, None, map[]);
    var append, list := AppendEvent(agent, event, 1), ListEvents(agent, Filters(None, None), 50, 0);
    ops, worlds := TwoRequests(setting, append, list);
    StartIsInStep(setting);
    OneStoresOneRefuses(setting, Start(setting), append);
    assert worlds[1].log.EventsOf(agent) == [event];
    ListsTheOne(setting, worlds[1], agent, event);
    ListsNothing(setting, worlds[1], agent);
  }

  // ---- the assumptions ----------------------------------------------------------------------------

  lemma {:induction false} UnzuluSpellings()
    ensures Unzulu(ASKED) == STORED && Unzulu(STORED) == STORED
  {
    assert |ASKED| == |MOMENT| + 1 && ASKED[|MOMENT|] == 'Z' && ASKED[..|MOMENT|] == MOMENT;
    assert |STORED| == |MOMENT| + 6 && STORED[|MOMENT| + 5] == '0';
  }

  lemma {:induction false} BothSpellingsRead()
    ensures CalendarClock().parse(ASKED) == CalendarClock().parse(STORED)
  {
    UnzuluSpellings();
    NoonIsCanonical();
    var noon: Moment :| noon.Valid() && STORED == noon.Text();
    ReadsAndShows(noon, ASKED);
    ReadsAndShows(noon, STORED);
  }

  lemma {:induction false} OtherLengthIsNotRead(text: string)
    requires |Unzulu(text)| != 25
    ensures !CalendarClock().Reads(text)
  {
    forall m: Moment | m.Valid()
      ensures m.Text() != Unzulu(text)
    {
      TextEnds(m);
    }
  }

  /** There is a clock of which everything holds that the theorems and the runs here assume of one. */
  lemma {:induction false} AssumptionsAreConsistent()
    ensures
      var clock := CalendarClock();
      && KeepsCalendar(clock) && ReadsBack(clock)
      && clock.parse(ASKED) == clock.parse(STORED)
      && !clock.Reads(UNREADABLE)
  {
    CalendarClockKeepsTime();
    BothSpellingsRead();
    OtherLengthIsNotRead(UNREADABLE);
  }

  // ---- soul histories -----------------------------------------------------------------------------

  lemma {:induction false} RowsShowVersions(agent: string, configs: seq<SoulConfig>, limit: nat)
    ensures Map(Take(Pg.SoulRows(agent, configs), limit), Pg.ToVersion()) == Take(Memory.Versions(configs), limit)
  {
  }

  /** What the two histories are: the newest `limit` versions here, all of them for a limit of zero,
      and the oldest `limit` versions there, both in ascending order. */
  lemma {:induction false} HistoriesAre(setting: Setting, w: World, agent: string, limit: nat)
    requires InStep(setting, w) && agent in w.log.agents
    ensures
      var versions := Memory.Versions(w.log.SoulsOf(agent));
      && Memory.SoulHistory(w.memory, agent, limit) == Success(if limit == 0 then versions else Last(versions, limit))
      && Pg.SoulHistory(w.pg, agent, limit) == Success(Take(versions, limit))
  {
    assert w.pg.SoulsOf(agent) == Pg.SoulRows(agent, w.log.SoulsOf(agent));
    assert w.memory.SoulsOf(agent) == Memory.Versions(w.log.SoulsOf(agent));
    SortedIsFixed(w.pg.SoulsOf(agent), Pg.ByVersion());
    RowsShowVersions(agent, w.log.SoulsOf(agent), limit);
  }

  lemma {:induction false} UnknownAgentHasNoHistory(setting: Setting, w: World, agent: string, limit: nat)
    requires InStep(setting, w) && agent !in w.log.agents
    ensures Memory.SoulHistory(w.memory, agent, limit) == Failure(AgentNotFound(agent))
    ensures Pg.SoulHistory(w.pg, agent, limit) == Failure(AgentNotFound(agent))
  {
  }

  /** Soul history: the newest versions here, the oldest there.  For every limit the two lists
      are equal exactly when the whole history fits it. */
  lemma {:induction false} HistoriesAgreeIff(setting: Setting, w: World, agent: string, limit: nat)
    requires InStep(setting, w) && agent in w.log.agents
    ensures Memory.SoulHistory(w.memory, agent, limit) == Pg.SoulHistory(w.pg, agent, limit)
       <==> |w.log.SoulsOf(agent)| <= limit
  {
    HistoriesAre(setting, w, agent, limit);
    NewestAndOldest(Memory.Versions(w.log.SoulsOf(agent)), limit);
  }

  lemma {:induction false} NewestAndOldest(versions: seq<SoulVersion>, limit: nat)
    requires forall i :: 0 <= i < |versions| ==> versions[i].version == i + 1
    ensures (if limit == 0 then versions else Last(versions, limit)) == Take(versions, limit) <==> |versions| <= limit
  {
    if |versions| > limit > 0 {
      assert Last(versions, limit)[0] == versions[|versions| - limit] && Take(versions, limit)[0] == versions[0];
    }
  }

  /** A run that stores two versions: asked for one, the runtimes give different ones. */
  lemma {:induction false} HistoriesDiffer(setting: Setting, agent: string, first: SoulConfig, second: SoulConfig)
    returns (ops: seq<Op>, worlds: seq<World>)
    requires agent in setting.agents && Pg.ReadsDecimals(setting.toInt)
    ensures IsRun(setting, ops, worlds) && ops == [AppendSoul(agent, first), AppendSoul(agent, second)]
    ensures Memory.SoulHistory(worlds[2].memory, agent, 1) == Success([SoulVersion(2, second)])
    ensures Pg.SoulHistory(worlds[2].pg, agent, 1) == Success([SoulVersion(1, first)])
  {
    ops, worlds := TwoRequests(setting, AppendSoul(agent, first), AppendSoul(agent, second));
    RunStaysInStep(setting, ops, worlds, 2);
    var configs := [first, second];
    assert worlds[2].log.SoulsOf(agent) == configs;
    assert worlds[2].memory.SoulsOf(agent) == Memory.Versions(configs);
    assert Memory.Versions(configs) == [SoulVersion(1, first), SoulVersion(2, second)];
    assert worlds[2].pg.SoulsOf(agent) == Pg.SoulRows(agent, configs);
    SortedIsFixed(Pg.SoulRows(agent, configs), Pg.ByVersion());
    var oldest := Take(Pg.SoulRows(agent, configs), 1);
    assert oldest == [Pg.SoulRow(agent, 1, first)];
    assert Map(oldest, Pg.ToVersion()) == [SoulVersion(1, first)];
  }
}
