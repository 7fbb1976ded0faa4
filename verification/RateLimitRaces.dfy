/**
 The limiter under concurrency (workers/rate-limit/src/index.ts): the storage has no atomic
 increment, so each check is a separate get and put, any number of requests are in flight, and a
 get may return a stale value or none at all.
 */
module RateLimitRaces {
  import opened Wrappers
  import opened Seqs
  import opened RateLimit

  datatype Request = Request(user: Option<string>, ip: string)

  datatype Config = Config(userLimit: int, ipLimit: int) {
    function LimitOf(scope: Scope): int {
      match scope
      case UserScope => userLimit
      case IpScope => ipLimit
    }
  }

  /** A check between its get and its put. */
  datatype Pending = Idle | Got(window: nat, current: nat)

  /** A request in flight: the scopes still to check, the check under way, the results so far. */
  datatype Flight = Flight(request: Request, todo: seq<Scope>, pending: Pending, checks: seq<CheckResult>)

  datatype Put = Put(writer: nat, scope: Scope, id: string, window: nat, value: nat) {
    function Key(): string {
      KeyText(scope, id, window)
    }
  }

  /** All requests by number, and every put that was ever done, oldest first. */
  datatype State = State(flights: map<nat, Flight>, puts: seq<Put>)

  const INIT := State(map[], [])

  datatype Event =
    | Arrive(r: nat, request: Request)
    | GetStep(r: nat, now: nat, observed: nat)
    | PutStep(r: nat)

  function IdOf(request: Request, scope: Scope): string {
    if scope == UserScope && request.user.Some? && request.user.value != "" then request.user.value else request.ip
  }

  /** Per user first if there is one, then per address. */
  function ScopesOf(request: Request): seq<Scope> {
    if request.user.Some? && request.user.value != "" then [UserScope, IpScope] else [IpScope]
  }

  /** A get returns nothing, or any value that some earlier put left under the key. */
  ghost predicate MayObserve(puts: seq<Put>, key: string, observed: nat) {
    observed == 0 || exists i :: 0 <= i < |puts| && puts[i].Key() == key && puts[i].value == observed
  }

  ghost predicate Enabled(s: State, e: Event) {
    match e
    case Arrive(r, _) => r !in s.flights
    case GetStep(r, now, observed) =>
      && r in s.flights && s.flights[r].todo != [] && s.flights[r].pending.Idle?
      && MayObserve(s.puts, KeyText(s.flights[r].todo[0], IdOf(s.flights[r].request, s.flights[r].todo[0]),
               WindowOf(now)),
                    observed)
    case PutStep(r) => r in s.flights && s.flights[r].todo != [] && s.flights[r].pending.Got?
  }

  function Apply(config: Config, s: State, e: Event): State
    requires e.PutStep? ==> e.r in s.flights && s.flights[e.r].todo != [] && s.flights[e.r].pending.Got?
    requires e.GetStep? ==> e.r in s.flights
  {
    match e
    case Arrive(r, request) => s.(flights := s.flights[r := Flight(request, ScopesOf(request), Idle, [])])
    case GetStep(r, now, observed) =>
      s.(flights := s.flights[r := s.flights[r].(pending := Got(WindowOf(now), observed))])
    case PutStep(r) =>
      var f := s.flights[r];
      var scope := f.todo[0];
      var result := Verdict(scope, config.LimitOf(scope), f.pending.window, f.pending.current);
      State(s.flights[r := Flight(f.request, f.todo[1..], Idle, f.checks + [result])],
            s.puts + [Put(r, scope, IdOf(f.request, scope), f.pending.window, f.pending.current + 1)])
  }

  ghost predicate IsRun(config: Config, events: seq<Event>, states: seq<State>) {
    && |states| == |events| + 1
    && states[0] == INIT
    && forall i :: 0 <= i < |events| ==>
         Enabled(states[i], events[i]) && states[i + 1] == Apply(config, states[i], events[i])
  }

  // ---- what every step keeps --------------------------------------------------------------------

  /** The numbers of the requests that did a put on a key. */
  function Writers(puts: seq<Put>, key: string): set<nat> {
    set i | 0 <= i < |puts| && puts[i].Key() == key :: puts[i].writer
  }

  /** A stored counter never exceeds the number of requests that had written it by then. */
  ghost predicate CountersAreEarned(puts: seq<Put>) {
    forall i :: 0 <= i < |puts| ==> puts[i].value <= |Writers(puts[..i + 1], puts[i].Key())|
  }

  /** No request writes twice for one scope, and none writes for a scope it still has to check. */
  ghost predicate WritesOnce(s: State) {
    && (forall i, j :: 0 <= i < j < |s.puts| && s.puts[i].writer == s.puts[j].writer ==>
          s.puts[i].scope != s.puts[j].scope)
    && (forall i :: 0 <= i < |s.puts| ==>
          s.puts[i].writer in s.flights && s.puts[i].scope !in s.flights[s.puts[i].writer].todo)
    && (forall r :: r in s.flights ==> DistinctScopes(s.flights[r].todo))
  }

  predicate DistinctScopes(todo: seq<Scope>) {
    |todo| <= 2 && (|todo| == 2 ==> todo[0] != todo[1])
  }

  /** What a request has read was earned by earlier writers of the same key. */
  ghost predicate PendingIsEarned(s: State, r: nat)
    requires r in s.flights
  {
    var f := s.flights[r];
    f.pending.Got? && f.todo != [] ==>
      f.pending.current <= |Writers(s.puts, KeyText(f.todo[0], IdOf(f.request, f.todo[0]), f.pending.window))|
  }

  /** Every finished check left its put behind. */
  ghost predicate CheckIsWritten(config: Config, s: State, r: nat, c: CheckResult)
    requires r in s.flights
  {
    exists i :: 0 <= i < |s.puts| && IsPutOf(config, s.puts[i], r, s.flights[r].request, c)
  }

  predicate IsPutOf(config: Config, p: Put, r: nat, request: Request, c: CheckResult) {
    && p.writer == r && p.scope == c.scope && p.id == IdOf(request, c.scope) && p.value >= 1
    && c == Verdict(c.scope, config.LimitOf(c.scope), p.window, p.value - 1)
  }

  ghost predicate Inv(config: Config, s: State) {
    && CountersAreEarned(s.puts)
    && WritesOnce(s)
    && (forall r :: r in s.flights ==> PendingIsEarned(s, r))
    && (forall r, k :: r in s.flights && 0 <= k < |s.flights[r].checks| ==>
          CheckIsWritten(config, s, r, s.flights[r].checks[k]))
  }

  lemma {:induction false} WritersSnoc(puts: seq<Put>, p: Put, key: string)
    ensures Writers(puts + [p], key) == Writers(puts, key) + if p.Key() == key then {p.writer} else {}
  {
    var all := puts + [p];
    forall r | r in Writers(puts, key) || (p.Key() == key && r == p.writer)
      ensures r in Writers(all, key)
    {
      if r in Writers(puts, key) {
        var i :| 0 <= i < |puts| && puts[i].Key() == key && puts[i].writer == r;
        assert all[i] == puts[i];
      } else {
        assert all[|puts|] == p;
      }
    }
    forall r | r in Writers(all, key)
      ensures r in Writers(puts, key) || (p.Key() == key && r == p.writer)
    {
      var i :| 0 <= i < |all| && all[i].Key() == key && all[i].writer == r;
      if i < |puts| {
        assert puts[i] == all[i];
      }
    }
  }

  lemma {:induction false} WritersGrow(puts: seq<Put>, i: nat, key: string)
    requires i <= |puts|
    ensures Writers(puts[..i], key) <= Writers(puts, key)
    ensures |Writers(puts[..i], key)| <= |Writers(puts, key)|
    decreases |puts| - i
  {
    if i < |puts| {
      assert puts[..i + 1] == puts[..i] + [puts[i]];
      WritersSnoc(puts[..i], puts[i], key);
      SubsetCardinality(Writers(puts[..i], key), Writers(puts[..i + 1], key));
      WritersGrow(puts, i + 1, key);
    } else {
      assert puts[..i] == puts;
    }
  }

  lemma {:induction false} SubsetCardinality(a: set<nat>, b: set<nat>)
    requires a <= b
    ensures |a| <= |b|
  {
    if a != {} {
      var x :| x in a;
      SubsetCardinality(a - {x}, b - {x});
    }
  }

  lemma {:induction false} ObservedIsEarned(puts: seq<Put>, key: string, observed: nat)
    requires CountersAreEarned(puts) && MayObserve(puts, key, observed)
    ensures observed <= |Writers(puts, key)|
  {
    if observed != 0 {
      var i :| 0 <= i < |puts| && puts[i].Key() == key && puts[i].value == observed;
      WritersGrow(puts, i + 1, key);
    }
  }

  /** A request that still has to check a scope has not written its counter. */
  lemma {:induction false} NotYetAWriter(s: State, r: nat, window: nat)
    requires WritesOnce(s)
    requires r in s.flights && s.flights[r].todo != []
    ensures
      var scope := s.flights[r].todo[0];
      r !in Writers(s.puts, KeyText(scope, IdOf(s.flights[r].request, scope), window))
  {
    var scope := s.flights[r].todo[0];
    var id := IdOf(s.flights[r].request, scope);
    forall i | 0 <= i < |s.puts| && s.puts[i].Key() == KeyText(scope, id, window)
      ensures s.puts[i].writer != r
    {
      KeyTextInjective(scope, id, window, s.puts[i].scope, s.puts[i].id, s.puts[i].window);
    }
  }

  lemma {:induction false} ArriveKeepsInv(config: Config, s: State, e: Event)
    requires Inv(config, s) && Enabled(s, e) && e.Arrive?
    ensures Inv(config, Apply(config, s, e))
  {
    var s' := Apply(config, s, e);
    forall r, k | r in s'.flights && 0 <= k < |s'.flights[r].checks|
      ensures CheckIsWritten(config, s', r, s'.flights[r].checks[k])
    {
      assert CheckIsWritten(config, s, r, s.flights[r].checks[k]);
    }
    forall r | r in s'.flights
      ensures PendingIsEarned(s', r)
    {
      assert r != e.r ==> PendingIsEarned(s, r);
    }
  }

  lemma {:induction false} GetKeepsInv(config: Config, s: State, e: Event)
    requires Inv(config, s) && Enabled(s, e) && e.GetStep?
    ensures Inv(config, Apply(config, s, e))
  {
    var s' := Apply(config, s, e);
    var f := s.flights[e.r];
    ObservedIsEarned(s.puts, KeyText(f.todo[0], IdOf(f.request, f.todo[0]), WindowOf(e.now)), e.observed);
    forall r, k | r in s'.flights && 0 <= k < |s'.flights[r].checks|
      ensures CheckIsWritten(config, s', r, s'.flights[r].checks[k])
    {
      assert CheckIsWritten(config, s, r, s.flights[r].checks[k]);
    }
    forall r | r in s'.flights
      ensures PendingIsEarned(s', r)
    {
      assert r != e.r ==> PendingIsEarned(s, r);
    }
  }

  lemma {:induction false} PutEarnsItsCounter(s: State, p: Put)
    requires CountersAreEarned(s.puts) && WritesOnce(s)
    requires p.writer in s.flights && s.flights[p.writer].todo != [] && s.flights[p.writer].todo[0] == p.scope
    requires p.id == IdOf(s.flights[p.writer].request, p.scope)
    requires p.value <= |Writers(s.puts, p.Key())| + 1
    ensures CountersAreEarned(s.puts + [p])
  {
    var puts := s.puts + [p];
    forall i | 0 <= i < |puts|
      ensures puts[i].value <= |Writers(puts[..i + 1], puts[i].Key())|
    {
      if i < |s.puts| {
        assert puts[..i + 1] == s.puts[..i + 1];
        assert s.puts[i].value <= |Writers(s.puts[..i + 1], s.puts[i].Key())|;
      } else {
        assert puts[..i + 1] == puts;
        WritersSnoc(s.puts, p, p.Key());
        NotYetAWriter(s, p.writer, p.window);
      }
    }
  }

  lemma {:induction false} PutKeepsWritesOnce(config: Config, s: State, e: Event)
    requires WritesOnce(s) && Enabled(s, e) && e.PutStep?
    ensures WritesOnce(Apply(config, s, e))
  {
    var s' := Apply(config, s, e);
    var f := s.flights[e.r];
    assert DistinctScopes(f.todo);
    assert f.todo[0] !in f.todo[1..];
    forall i | 0 <= i < |s'.puts|
      ensures s'.puts[i].writer in s'.flights && s'.puts[i].scope !in s'.flights[s'.puts[i].writer].todo
      ensures i < |s.puts| && s'.puts[i].writer == e.r ==> s'.puts[i].scope != f.todo[0]
    {
      if i < |s.puts| {
        assert s'.puts[i] == s.puts[i];
      }
    }
  }

  lemma {:induction false} PutKeepsInv(config: Config, s: State, e: Event)
    requires Inv(config, s) && Enabled(s, e) && e.PutStep?
    ensures Inv(config, Apply(config, s, e))
  {
    var s' := Apply(config, s, e);
    var f := s.flights[e.r];
    var p := s'.puts[|s.puts|];
    assert s'.puts == s.puts + [p];
    assert PendingIsEarned(s, e.r);
    PutEarnsItsCounter(s, p);
    PutKeepsWritesOnce(config, s, e);
    forall r | r in s'.flights
      ensures PendingIsEarned(s', r)
    {
      PutKeepsPending(s, s', e.r, p, r);
    }
    forall r, k | r in s'.flights && 0 <= k < |s'.flights[r].checks|
      ensures CheckIsWritten(config, s', r, s'.flights[r].checks[k])
    {
      PutKeepsChecks(config, s, e, r, k);
    }
  }

  lemma {:induction false} PutKeepsPending(s: State, s': State, writer: nat, p: Put, r: nat)
    requires r in s.flights && r in s'.flights && PendingIsEarned(s, r)
    requires s'.puts == s.puts + [p]
    requires if r == writer then s'.flights[r].pending.Idle? else s'.flights[r] == s.flights[r]
    ensures PendingIsEarned(s', r)
  {
    var f := s'.flights[r];
    if f.pending.Got? && f.todo != [] {
      var key := KeyText(f.todo[0], IdOf(f.request, f.todo[0]), f.pending.window);
      assert s'.puts[..|s.puts|] == s.puts;
      WritersGrow(s'.puts, |s.puts|, key);
    }
  }

  lemma {:induction false} PutKeepsChecks(config: Config, s: State, e: Event, r: nat, k: nat)
    requires Inv(config, s) && Enabled(s, e) && e.PutStep?
    requires r in Apply(config, s, e).flights && k < |Apply(config, s, e).flights[r].checks|
    ensures CheckIsWritten(config, Apply(config, s, e), r, Apply(config, s, e).flights[r].checks[k])
  {
    var s' := Apply(config, s, e);
    if k < |s.flights[r].checks| {
      var c := s.flights[r].checks[k];
      assert CheckIsWritten(config, s, r, c);
      var i :| 0 <= i < |s.puts| && IsPutOf(config, s.puts[i], r, s.flights[r].request, c);
      assert s'.puts[i] == s.puts[i];
    } else {
      assert IsPutOf(config, s'.puts[|s.puts|], r, s'.flights[r].request, s'.flights[r].checks[k]);
    }
  }

  lemma {:induction false} RunKeepsInv(config: Config, events: seq<Event>, states: seq<State>, i: nat)
    requires IsRun(config, events, states) && i < |states|
    ensures Inv(config, states[i])
  {
    if i > 0 {
      RunKeepsInv(config, events, states, i - 1);
      assert Enabled(states[i - 1], events[i - 1]);
      match events[i - 1] {
        case Arrive(_, _) => ArriveKeepsInv(config, states[i - 1], events[i - 1]);
        case GetStep(_, _, _) => GetKeepsInv(config, states[i - 1], events[i - 1]);
        case PutStep(_) => PutKeepsInv(config, states[i - 1], events[i - 1]);
      }
    }
  }

  // ---- which counters a request writes ------------------------------------------------------------

  function ByWriter(r: nat): Put -> bool {
    (p: Put) => p.writer == r
  }

  function PutsOf(puts: seq<Put>, r: nat): seq<Put> {
    Filter(puts, ByWriter(r))
  }

  /** The scopes a request has to check, the user's first if it names one. */
  ghost function Due(request: Request): seq<Scope> {
    if request.user.Some? && request.user.value != "" then [UserScope, IpScope] else [IpScope]
  }

  /** A request has written the counters it was due to check, up to those it still has to. */
  ghost predicate HasWritten(s: State, r: nat)
    requires r in s.flights
  {
    var f, puts := s.flights[r], PutsOf(s.puts, r);
    var due := Due(f.request);
    && |puts| + |f.todo| == |due| && f.todo == due[|puts|..] && |f.checks| == |puts|
    && forall k :: 0 <= k < |puts| ==>
         && puts[k].scope == due[k]
         && puts[k].id == (if due[k] == UserScope then f.request.user.value else f.request.ip)
  }

  ghost predicate AllHaveWritten(s: State) {
    && (forall r :: r in s.flights ==> HasWritten(s, r))
    && (forall i :: 0 <= i < |s.puts| ==> s.puts[i].writer in s.flights)
  }

  lemma {:induction false} PutsOfSnoc(puts: seq<Put>, p: Put, r: nat)
    ensures PutsOf(puts + [p], r) == if p.writer == r then PutsOf(puts, r) + [p] else PutsOf(puts, r)
  {
    FilterConcat(puts, [p], ByWriter(r));
    assert Filter([p], ByWriter(r)) == if p.writer == r then [p] else [];
    assert PutsOf(puts, r) + [] == PutsOf(puts, r);
  }

  lemma {:induction false} NoPutsYet(s: State, r: nat)
    requires AllHaveWritten(s) && r !in s.flights
    ensures PutsOf(s.puts, r) == []
  {
    FilterNone(s.puts, ByWriter(r));
  }

  lemma {:induction false} PutHasWritten(config: Config, s: State, e: Event, r: nat)
    requires Enabled(s, e) && e.PutStep? && r in s.flights && HasWritten(s, r)
    ensures r in Apply(config, s, e).flights && HasWritten(Apply(config, s, e), r)
  {
    PutsOfSnoc(s.puts, Apply(config, s, e).puts[|s.puts|], r);
  }

  lemma {:induction false} OtherHasWritten(config: Config, s: State, e: Event, r: nat)
    requires Enabled(s, e) && !e.PutStep? && r in s.flights && HasWritten(s, r)
    ensures r in Apply(config, s, e).flights && HasWritten(Apply(config, s, e), r)
  {
  }

  lemma {:induction false} StepHasWritten(config: Config, s: State, e: Event)
    requires AllHaveWritten(s) && Enabled(s, e)
    ensures AllHaveWritten(Apply(config, s, e))
  {
    var s' := Apply(config, s, e);
    forall r | r in s'.flights
      ensures HasWritten(s', r)
    {
      if r !in s.flights {
        NoPutsYet(s, r);
      } else if e.PutStep? {
        PutHasWritten(config, s, e, r);
      } else {
        OtherHasWritten(config, s, e, r);
      }
    }
  }

  lemma {:induction false} RunHasWritten(config: Config, events: seq<Event>, states: seq<State>, i: nat)
    requires IsRun(config, events, states) && i < |states|
    ensures AllHaveWritten(states[i])
  {
    if i > 0 {
      RunHasWritten(config, events, states, i - 1);
      assert Enabled(states[i - 1], events[i - 1]);
      StepHasWritten(config, states[i - 1], events[i - 1]);
    }
  }

  /** In every run a request that has finished its checks has written one counter of its address
      and, if it names a user, first one of that user, and nothing else. */
  lemma {:induction false} FinishedHasWritten(config: Config, events: seq<Event>, states: seq<State>, i: nat, r: nat)
    requires IsRun(config, events, states) && i < |states|
    requires r in states[i].flights && states[i].flights[r].todo == []
    ensures
      var puts, request := PutsOf(states[i].puts, r), states[i].flights[r].request;
      if request.user.Some? && request.user.value != "" then
        && |puts| == 2
        && puts[0].scope == UserScope && puts[0].id == request.user.value
        && puts[1].scope == IpScope && puts[1].id == request.ip
      else |puts| == 1 && puts[0].scope == IpScope && puts[0].id == request.ip
  {
    RunHasWritten(config, events, states, i);
    assert HasWritten(states[i], r);
  }

  // ---- what a client may conclude -----------------------------------------------------------------

  /** In every run, a counter value is at most the number of requests that wrote its key: stale
      reads and lost updates only ever count too little. */
  lemma {:induction false} CountersNeverOvercount(config: Config, events: seq<Event>, states: seq<State>, i: nat,
          k: nat)
    requires IsRun(config, events, states) && i < |states| && k < |states[i].puts|
    ensures states[i].puts[k].value <= |Writers(states[i].puts, states[i].puts[k].Key())|
  {
    RunKeepsInv(config, events, states, i);
    WritersGrow(states[i].puts, k + 1, states[i].puts[k].Key());
  }

  /** So a refusal is always deserved: when a request has finished its checks and is denied for a
      scope, more than `limit` different requests have hit that scope's counter in the very
      window the refusal names. */
  lemma {:induction false} DenialIsDeserved(config: Config, events: seq<Event>, states: seq<State>, i: nat, r: nat)
    returns (window: nat)
    requires IsRun(config, events, states) && i < |states|
    requires r in states[i].flights && states[i].flights[r].checks != []
    requires Decide(states[i].flights[r].checks).Denied?
    ensures
      var s := states[i];
      var d := Decide(s.flights[r].checks);
      && d.limit == config.LimitOf(d.scope)
      && d.resetAt == (window + 1) * 60
      && |Writers(s.puts, KeyText(d.scope, IdOf(s.flights[r].request, d.scope), window))| > d.limit
  {
    RunKeepsInv(config, events, states, i);
    var s := states[i];
    var checks := s.flights[r].checks;
    var k := if !checks[0].allowed then 0 else 1;
    var c := checks[k];
    assert CheckIsWritten(config, s, r, c);
    var j :| 0 <= j < |s.puts| && IsPutOf(config, s.puts[j], r, s.flights[r].request, c);
    window := s.puts[j].window;
    CountersNeverOvercount(config, events, states, i, j);
  }

  // ---- what races admit --------------------------------------------------------------------------

  /** The counter a check has read and not written yet. */
  predicate PendingOn(s: State, r: nat, key: string) {
    && r in s.flights && s.flights[r].todo != [] && s.flights[r].pending.Got?
    && key == KeyText(s.flights[r].todo[0], IdOf(s.flights[r].request, s.flights[r].todo[0]),
             s.flights[r].pending.window)
  }

  lemma {:induction false} PutAddsAWriter(config: Config, s: State, e: Event, key: string)
    requires Inv(config, s) && Enabled(s, e) && e.PutStep? && PendingOn(s, e.r, key)
    ensures |Writers(Apply(config, s, e).puts, key)| == |Writers(s.puts, key)| + 1
  {
    var p := Apply(config, s, e).puts[|s.puts|];
    WritersSnoc(s.puts, p, key);
    NotYetAWriter(s, e.r, p.window);
  }

  /** What one check does in any run, by its rank, the number of requests that have written the
      counter once it has.  It never refuses a rank within the limit.  It wrongly allows a rank
      beyond the limit exactly when its get saw fewer than `limit` although at least `limit` others
      had written by its put; and if its get saw all of them, its rank alone decides. */
  lemma {:induction false} WronglyAllowedIff(config: Config, events: seq<Event>, states: seq<State>, i: nat,
          key: string)
    requires IsRun(config, events, states) && i < |events| && events[i].PutStep?
    requires PendingOn(states[i], events[i].r, key)
    ensures
      var f := states[i].flights[events[i].r];
      var limit, others, checks := config.LimitOf(f.todo[0]), |Writers(states[i].puts, key)|,
                                   states[i + 1].flights[events[i].r].checks;
      && |Writers(states[i + 1].puts, key)| == others + 1
      && checks != [] && checks[|checks| - 1].scope == f.todo[0]
      && var allowed := checks[|checks| - 1].allowed;
      && (!allowed ==> others + 1 > limit)
      && (allowed && others + 1 > limit <==> f.pending.current < limit <= others)
      && (f.pending.current == others ==> (allowed <==> others + 1 <= limit))
  {
    RunKeepsInv(config, events, states, i);
    assert Enabled(states[i], events[i]) && states[i + 1] == Apply(config, states[i], events[i]);
    PutAddsAWriter(config, states[i], events[i], key);
    assert PendingIsEarned(states[i], events[i].r);
  }

  function OnKey(key: string): Put -> bool {
    (p: Put) => p.Key() == key
  }

  /** The writes of one counter, oldest first. */
  function PutsOn(puts: seq<Put>, key: string): seq<Put> {
    Filter(puts, OnKey(key))
  }

  /** What a store that is up to date returns. */
  function Latest(puts: seq<Put>, key: string): nat {
    var mine := PutsOn(puts, key);
    if mine == [] then 0 else mine[|mine| - 1].value
  }

  /** Every get of the counter returns its latest value. */
  ghost predicate Fresh(s: State, e: Event, key: string) {
    e.GetStep? && e.r in s.flights && s.flights[e.r].todo != []
    && key == KeyText(s.flights[e.r].todo[0], IdOf(s.flights[e.r].request, s.flights[e.r].todo[0]), WindowOf(e.now))
    ==> e.observed == Latest(s.puts, key)
  }

  /** No put of the counter happens while another check of it is between its get and its put. */
  ghost predicate Isolated(s: State, e: Event, key: string) {
    e.PutStep? && PendingOn(s, e.r, key) ==> forall r :: r != e.r ==> !PendingOn(s, r, key)
  }

  ghost predicate OneAtATime(events: seq<Event>, states: seq<State>, key: string) {
    && |states| == |events| + 1
    && forall i :: 0 <= i < |events| ==> Fresh(states[i], events[i], key) && Isolated(states[i], events[i], key)
  }

  /** The k-th write of the counter stores k, and whoever has read it knows how many there were. */
  ghost predicate Exact(s: State, key: string) {
    && (forall k :: 0 <= k < |PutsOn(s.puts, key)| ==> PutsOn(s.puts, key)[k].value == k + 1)
    && (forall r :: PendingOn(s, r, key) ==> s.flights[r].pending.current == |PutsOn(s.puts, key)|)
  }

  lemma {:induction false} PutsOnSnoc(puts: seq<Put>, p: Put, key: string)
    ensures PutsOn(puts + [p], key) == if p.Key() == key then PutsOn(puts, key) + [p] else PutsOn(puts, key)
  {
    FilterConcat(puts, [p], OnKey(key));
    assert Filter([p], OnKey(key)) == if p.Key() == key then [p] else [];
    assert PutsOn(puts, key) + [] == PutsOn(puts, key);
  }

  /** What a put adds to the writes of a counter. */
  lemma {:induction false} PutsAfter(config: Config, s: State, e: Event, key: string)
    requires Enabled(s, e) && e.PutStep?
    ensures
      var p := Apply(config, s, e).puts[|s.puts|];
      && (p.Key() == key <==> PendingOn(s, e.r, key))
      && p.value == s.flights[e.r].pending.current + 1
      && PutsOn(Apply(config, s, e).puts, key) == if p.Key() == key then PutsOn(s.puts, key) + [p]
           else PutsOn(s.puts, key)
  {
    PutsOnSnoc(s.puts, Apply(config, s, e).puts[|s.puts|], key);
  }

  lemma {:induction false} PutKeepsExact(config: Config, s: State, e: Event, key: string)
    requires Exact(s, key) && Enabled(s, e) && e.PutStep? && Isolated(s, e, key)
    ensures Exact(Apply(config, s, e), key)
  {
    var s' := Apply(config, s, e);
    PutsAfter(config, s, e, key);
    forall r | PendingOn(s', r, key)
      ensures s'.flights[r].pending.current == |PutsOn(s'.puts, key)|
    {
      assert r != e.r && PendingOn(s, r, key);
    }
  }

  lemma {:induction false} StepKeepsExact(config: Config, s: State, e: Event, key: string)
    requires Exact(s, key) && Enabled(s, e) && Fresh(s, e, key) && Isolated(s, e, key)
    ensures Exact(Apply(config, s, e), key)
  {
    var s' := Apply(config, s, e);
    if e.PutStep? {
      PutKeepsExact(config, s, e, key);
    } else {
      forall r | PendingOn(s', r, key)
        ensures s'.flights[r].pending.current == |PutsOn(s'.puts, key)|
      {
        assert r != e.r ==> PendingOn(s, r, key);
      }
    }
  }

  lemma {:induction false} StepCountsWriters(config: Config, s: State, e: Event, key: string)
    requires Inv(config, s) && Enabled(s, e) && |Writers(s.puts, key)| == |PutsOn(s.puts, key)|
    ensures |Writers(Apply(config, s, e).puts, key)| == |PutsOn(Apply(config, s, e).puts, key)|
  {
    if e.PutStep? {
      PutsAfter(config, s, e, key);
      if PendingOn(s, e.r, key) {
        PutAddsAWriter(config, s, e, key);
      } else {
        WritersSnoc(s.puts, Apply(config, s, e).puts[|s.puts|], key);
      }
    }
  }

  lemma {:induction false} WritersAreCounted(config: Config, events: seq<Event>, states: seq<State>, i: nat,
          key: string)
    requires IsRun(config, events, states) && i < |states|
    ensures |Writers(states[i].puts, key)| == |PutsOn(states[i].puts, key)|
  {
    if i > 0 {
      WritersAreCounted(config, events, states, i - 1, key);
      RunKeepsInv(config, events, states, i - 1);
      assert Enabled(states[i - 1], events[i - 1]);
      StepCountsWriters(config, states[i - 1], events[i - 1], key);
    }
  }

  lemma {:induction false} RunStaysExact(config: Config, events: seq<Event>, states: seq<State>, i: nat, key: string)
    requires IsRun(config, events, states) && i < |states| && OneAtATime(events, states, key)
    ensures Exact(states[i], key)
  {
    if i > 0 {
      RunStaysExact(config, events, states, i - 1, key);
      assert Enabled(states[i - 1], events[i - 1]);
      StepKeepsExact(config, states[i - 1], events[i - 1], key);
    }
  }

  /** If every check of a counter is fresh and isolated, whatever else races, the counter is exact
      and exactly the first `limit` of its writers are allowed, as when requests are processed one
      at a time. */
  lemma {:induction false} OneAtATimeAdmitsTheFirst(config: Config, events: seq<Event>, states: seq<State>, i: nat,
          key: string)
    requires IsRun(config, events, states) && i < |states| && OneAtATime(events, states, key)
    ensures
      var puts := PutsOn(states[i].puts, key);
      && |Writers(states[i].puts, key)| == |puts|
      && forall k :: 0 <= k < |puts| ==>
           var limit := config.LimitOf(puts[k].scope);
           && puts[k].value == k + 1
           && (Verdict(puts[k].scope, limit, puts[k].window, puts[k].value - 1).allowed <==> k + 1 <= limit)
  {
    WritersAreCounted(config, events, states, i, key);
    RunStaysExact(config, events, states, i, key);
  }

  /** Such a run: two requests from one address that read before either writes are both forwarded
      under a limit of one. */
  lemma {:induction false} RaceAdmitsBoth() returns (events: seq<Event>, states: seq<State>)
    ensures IsRun(Config(1, 1), events, states)
    ensures
      var s := states[|events|];
      && 0 in s.flights && 1 in s.flights
      && s.flights[0].todo == [] == s.flights[1].todo
      && s.flights[0].request == s.flights[1].request
      && |s.flights[0].checks| == 1 == |s.flights[1].checks|
      && Decide(s.flights[0].checks).Forwarded? && Decide(s.flights[1].checks).Forwarded?
  {
    var config := Config(1, 1);
    var request := Request(None, "10.0.0.1");
    events := [Arrive(0, request), Arrive(1, request), GetStep(0, 0, 0), GetStep(1, 0, 0), PutStep(0), PutStep(1)];
    var s0 := INIT;
    var s1 := Apply(config, s0, events[0]);
    var s2 := Apply(config, s1, events[1]);
    var s3 := Apply(config, s2, events[2]);
    var s4 := Apply(config, s3, events[3]);
    var s5 := Apply(config, s4, events[4]);
    var s6 := Apply(config, s5, events[5]);
    states := [s0, s1, s2, s3, s4, s5, s6];
  }
}
