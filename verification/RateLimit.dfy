/**
 The fixed-window limiter (workers/rate-limit/src/index.ts): its counter keys, one check, and
 what a series of checks admits when they run one at a time.  Times are milliseconds.
 */
module RateLimit {
  import opened Wrappers
  import opened Seqs
  import Decimal

  datatype Scope = UserScope | IpScope

  function ScopeText(scope: Scope): string {
    match scope
    case UserScope => "user"
    case IpScope => "ip"
  }

  const WINDOW_MS := 60_000
  const TTL_MS := 90_000

  function WindowOf(now: nat): nat {
    now / WINDOW_MS
  }

  /** The storage key `<scope>:<id>:<window>`; identifiers may contain colons. */
  function KeyText(scope: Scope, id: string, window: nat): string {
    ScopeText(scope) + ":" + id + ":" + Decimal.Show(window)
  }

  /** Two checks share a counter only if scope, identifier and window are the same. */
  lemma {:induction false} KeyTextInjective(scope: Scope, id: string, window: nat, scope': Scope, id': string,
          window': nat)
    requires KeyText(scope, id, window) == KeyText(scope', id', window')
    ensures scope == scope' && id == id' && window == window'
  {
    var k := KeyText(scope, id, window);
    assert k[0] == ScopeText(scope)[0] == ScopeText(scope')[0];
    var head := ScopeText(scope) + ":";
    assert k == (head + id) + ":" + Decimal.Show(window);
    assert k == (head + id') + ":" + Decimal.Show(window');
    LastSeparator(head + id, Decimal.Show(window), head + id', Decimal.Show(window'), ':');
    assert id == (head + id)[|head|..] == (head + id')[|head|..] == id';
    Decimal.ShowInjective(window, window');
  }

  // ---- one check -----------------------------------------------------------------------------

  datatype Entry = Entry(count: nat, expiresAt: nat)

  type Store = map<string, Entry>

  /** An expired entry reads as missing. */
  function Get(store: Store, key: string, now: nat): nat {
    if key in store && now < store[key].expiresAt then store[key].count else 0
  }

  datatype CheckResult = CheckResult(allowed: bool, limit: int, remaining: int, resetAt: nat, scope: Scope)

  /** What a check returns once it has read `current`. */
  function Verdict(scope: Scope, limit: int, window: nat, current: nat): CheckResult {
    var next := current + 1;
    CheckResult(next <= limit, limit, Max(0, limit - next), (window + 1) * 60, scope)
  }

  function Check(store: Store, scope: Scope, id: string, limit: int, now: nat): (Store, CheckResult) {
    var key := KeyText(scope, id, WindowOf(now));
    var current := Get(store, key, now);
    (store[key := Entry(current + 1, now + TTL_MS)], Verdict(scope, limit, WindowOf(now), current))
  }

  /** What a client gets: a refusal for the first scope that is over its limit, or the response
      with the user's figures if there is a user, the address's otherwise. */
  datatype Decision =
    | Denied(scope: Scope, limit: int, resetAt: nat)
    | Forwarded(limit: int, remaining: int, resetAt: nat)

  function Decide(checks: seq<CheckResult>): Decision
    requires checks != []
  {
    if !checks[0].allowed then Denied(checks[0].scope, checks[0].limit, checks[0].resetAt)
    else if |checks| > 1 && !checks[1].allowed then Denied(checks[1].scope, checks[1].limit, checks[1].resetAt)
    else Forwarded(checks[0].limit, checks[0].remaining, checks[0].resetAt)
  }

  /** One request: its user if the token names one, its address, and the times of the two checks. */
  datatype Visit = Visit(userId: Option<string>, ip: string, userAt: nat, ipAt: nat)

  /** A token without a subject, or with an empty one, names no user.  Both counters move, also when
      the first one already refuses. */
  function Serve(store: Store, userLimit: int, ipLimit: int, v: Visit): (Store, Decision) {
    if v.userId.Some? && v.userId.value != "" then
      var (store1, user) := Check(store, UserScope, v.userId.value, userLimit, v.userAt);
      var (store2, address) := Check(store1, IpScope, v.ip, ipLimit, v.ipAt);
      (store2, Decide([user, address]))
    else
      var (store1, address) := Check(store, IpScope, v.ip, ipLimit, v.ipAt);
      (store1, Decide([address]))
  }

  /** A worker over one key-value namespace. */
  class Worker {
    var kv: Store
    const userLimit: int
    const ipLimit: int

    constructor (userLimit: int, ipLimit: int)
      ensures kv == map[] && this.userLimit == userLimit && this.ipLimit == ipLimit
    {
      kv := map[];
      this.userLimit, this.ipLimit := userLimit, ipLimit;
    }

    method CheckAndIncrement(scope: Scope, id: string, limit: int, now: nat) returns (r: CheckResult)
      modifies this
      ensures (kv, r) == Check(old(kv), scope, id, limit, now)
    {
      var window := WindowOf(now);
      var key := KeyText(scope, id, window);
      var current := if key in kv && now < kv[key].expiresAt then kv[key].count else 0;
      var next := current + 1;
      kv := kv[key := Entry(next, now + TTL_MS)];
      r := CheckResult(next <= limit, limit, Max(0, limit - next), (window + 1) * 60, scope);
    }

    /** One request, its user check at `userAt` and its address check at `ipAt`. */
    method Fetch(userId: Option<string>, ip: string, userAt: nat, ipAt: nat) returns (d: Decision)
      modifies this
      ensures (kv, d) == Serve(old(kv), userLimit, ipLimit, Visit(userId, ip, userAt, ipAt))
    {
      var checks: seq<CheckResult> := [];
      if userId.Some? && userId.value != "" {
        var user := CheckAndIncrement(UserScope, userId.value, userLimit, userAt);
        checks := checks + [user];
      }
      var address := CheckAndIncrement(IpScope, ip, ipLimit, ipAt);
      checks := checks + [address];
      d := Decide(checks);
    }
  }

  // ---- series of checks, one at a time ---------------------------------------------------------

  /** One check of a series, in the order they ran. */
  datatype Hit = Hit(scope: Scope, id: string, now: nat)

  type Limits = Scope -> int

  function StoreAfter(limits: Limits, hits: seq<Hit>): Store {
    if hits == [] then map[] else
      var h := hits[|hits| - 1];
      Check(StoreAfter(limits, hits[..|hits| - 1]), h.scope, h.id, limits(h.scope), h.now).0
  }

  /** The answer to the last check of a series. */
  function Answer(limits: Limits, hits: seq<Hit>): CheckResult
    requires hits != []
  {
    var h := hits[|hits| - 1];
    Check(StoreAfter(limits, hits[..|hits| - 1]), h.scope, h.id, limits(h.scope), h.now).1
  }

  predicate InWindow(h: Hit, scope: Scope, id: string, window: nat) {
    h.scope == scope && h.id == id && WindowOf(h.now) == window
  }

  function Count(hits: seq<Hit>, scope: Scope, id: string, window: nat): nat {
    if hits == [] then 0 else
      Count(hits[..|hits| - 1], scope, id, window) + if InWindow(hits[|hits| - 1], scope, id, window) then 1 else 0
  }

  /** Every counter holds the number of checks of its window, and outlives the window. */
  ghost predicate Counts(store: Store, hits: seq<Hit>) {
    forall scope, id, window :: CountsFor(store, hits, scope, id, window)
  }

  ghost predicate CountsFor(store: Store, hits: seq<Hit>, scope: Scope, id: string, window: nat) {
    var key, n := KeyText(scope, id, window), Count(hits, scope, id, window);
    if n == 0 then key !in store
    else key in store && store[key].count == n && store[key].expiresAt >= (window + 1) * WINDOW_MS + 30_000
  }

  /** A live window's counter never vanishes: whatever the time inside the window, reading the
      key finds the exact count. */
  lemma {:induction false} LiveCounterIsRead(store: Store, hits: seq<Hit>, scope: Scope, id: string, now: nat)
    requires Counts(store, hits)
    ensures Get(store, KeyText(scope, id, WindowOf(now)), now) == Count(hits, scope, id, WindowOf(now))
  {
    assert CountsFor(store, hits, scope, id, WindowOf(now));
    assert now < (WindowOf(now) + 1) * WINDOW_MS;
  }

  lemma {:induction false} CheckKeepsCounts(store: Store, hits: seq<Hit>, h: Hit, limit: int)
    requires Counts(store, hits)
    ensures Counts(Check(store, h.scope, h.id, limit, h.now).0, hits + [h])
  {
    var w := WindowOf(h.now);
    var store' := Check(store, h.scope, h.id, limit, h.now).0;
    LiveCounterIsRead(store, hits, h.scope, h.id, h.now);
    assert (hits + [h])[..|hits|] == hits;
    forall scope, id, window
      ensures CountsFor(store', hits + [h], scope, id, window)
    {
      assert CountsFor(store, hits, scope, id, window);
      if KeyText(scope, id, window) == KeyText(h.scope, h.id, w) {
        KeyTextInjective(scope, id, window, h.scope, h.id, w);
        assert h.now >= w * WINDOW_MS;
      }
    }
  }

  lemma {:induction false} StoreCounts(limits: Limits, hits: seq<Hit>)
    ensures Counts(StoreAfter(limits, hits), hits)
  {
    if hits == [] {
      forall scope, id, window
        ensures CountsFor(map[], hits, scope, id, window)
      {
      }
    } else {
      var front, h := hits[..|hits| - 1], hits[|hits| - 1];
      assert hits == front + [h];
      StoreCounts(limits, front);
      CheckKeepsCounts(StoreAfter(limits, front), front, h, limits(h.scope));
    }
  }

  lemma {:induction false} AnswerCounts(limits: Limits, hits: seq<Hit>, h: Hit)
    ensures Answer(limits, hits + [h])
         == Verdict(h.scope, limits(h.scope), WindowOf(h.now), Count(hits, h.scope, h.id, WindowOf(h.now)))
  {
    assert (hits + [h])[..|hits|] == hits;
    StoreCounts(limits, hits);
    CheckSeesCount(StoreAfter(limits, hits), hits, h.scope, h.id, limits(h.scope), h.now);
  }

  lemma {:induction false} CountSnoc(hits: seq<Hit>, h: Hit, scope: Scope, id: string, window: nat)
    ensures Count(hits + [h], scope, id, window)
         == Count(hits, scope, id, window) + if InWindow(h, scope, id, window) then 1 else 0
  {
    assert (hits + [h])[..|hits|] == hits;
  }

  /** The k-th check of a window is allowed exactly when k is within the limit, and reports what
      is left. */
  lemma {:induction false} ExactAdmission(limits: Limits, hits: seq<Hit>, h: Hit)
    ensures
      var answer := Answer(limits, hits + [h]);
      var k := Count(hits + [h], h.scope, h.id, WindowOf(h.now));
      && k >= 1
      && (answer.allowed <==> k <= limits(h.scope))
      && answer.remaining == Max(0, limits(h.scope) - k)
  {
    AnswerCounts(limits, hits, h);
    CountSnoc(hits, h, h.scope, h.id, WindowOf(h.now));
  }

  lemma {:induction false} CheckSeesCount(store: Store, hits: seq<Hit>, scope: Scope, id: string, limit: int, now: nat)
    requires Counts(store, hits)
    ensures Check(store, scope, id, limit, now).1
         == Verdict(scope, limit, WindowOf(now), Count(hits, scope, id, WindowOf(now)))
  {
    LiveCounterIsRead(store, hits, scope, id, now);
  }

  /** The reset time is the end of the window: in the future, and less than a minute away. */
  lemma {:induction false} ResetIsWindowEnd(store: Store, scope: Scope, id: string, limit: int, now: nat)
    ensures
      var r := Check(store, scope, id, limit, now).1;
      && now < r.resetAt * 1000 <= now + WINDOW_MS
      && WindowOf(r.resetAt * 1000) == WindowOf(now) + 1
  {
    var w := WindowOf(now);
    assert w * WINDOW_MS <= now < (w + 1) * WINDOW_MS;
    assert (w + 1) * 60 * 1000 == (w + 1) * WINDOW_MS;
  }

  /** How many checks of a series were allowed in one window. */
  function Admitted(limits: Limits, hits: seq<Hit>, scope: Scope, id: string, window: nat): nat {
    if hits == [] then 0 else
      Admitted(limits, hits[..|hits| - 1], scope, id, window)
      + if InWindow(hits[|hits| - 1], scope, id, window) && Answer(limits, hits).allowed then 1 else 0
  }

  lemma {:induction false} AdmittedSnoc(limits: Limits, front: seq<Hit>, h: Hit, scope: Scope, id: string, window: nat)
    ensures Admitted(limits, front + [h], scope, id, window)
         == Admitted(limits, front, scope, id, window)
          + if InWindow(h, scope, id, window) && Answer(limits, front + [h]).allowed then 1 else 0
  {
    assert (front + [h])[..|front|] == front;
  }

  /** Exactly the first `limit` checks of a window are allowed. */
  lemma {:induction false} AdmitsTheFirst(limits: Limits, hits: seq<Hit>, scope: Scope, id: string, window: nat)
    ensures Admitted(limits, hits, scope, id, window) == Min(Count(hits, scope, id, window), Max(0, limits(scope)))
  {
    if hits != [] {
      var front, h := hits[..|hits| - 1], hits[|hits| - 1];
      assert hits == front + [h];
      AdmitsTheFirst(limits, front, scope, id, window);
      AdmittedSnoc(limits, front, h, scope, id, window);
      CountSnoc(front, h, scope, id, window);
      ExactAdmission(limits, front, h);
    }
  }

  predicate InSpan(h: Hit, scope: Scope, id: string, start: nat) {
    h.scope == scope && h.id == id && start <= h.now < start + WINDOW_MS
  }

  /** How many checks were allowed in the 60 seconds from `start` on. */
  function AdmittedInSpan(limits: Limits, hits: seq<Hit>, scope: Scope, id: string, start: nat): nat {
    if hits == [] then 0 else
      AdmittedInSpan(limits, hits[..|hits| - 1], scope, id, start)
      + if InSpan(hits[|hits| - 1], scope, id, start) && Answer(limits, hits).allowed then 1 else 0
  }

  lemma {:induction false} SpanTouchesTwoWindows(limits: Limits, hits: seq<Hit>, scope: Scope, id: string, start: nat)
    ensures AdmittedInSpan(limits, hits, scope, id, start)
         <= Admitted(limits, hits, scope, id, WindowOf(start)) + Admitted(limits, hits, scope, id, WindowOf(start) + 1)
  {
    if hits != [] {
      SpanTouchesTwoWindows(limits, hits[..|hits| - 1], scope, id, start);
    }
  }

  /** Any 60 seconds admit at most twice the limit for one key. */
  lemma {:induction false} SpanBound(limits: Limits, hits: seq<Hit>, scope: Scope, id: string, start: nat)
    ensures AdmittedInSpan(limits, hits, scope, id, start) <= 2 * Max(0, limits(scope))
  {
    SpanTouchesTwoWindows(limits, hits, scope, id, start);
    AdmitsTheFirst(limits, hits, scope, id, WindowOf(start));
    AdmitsTheFirst(limits, hits, scope, id, WindowOf(start) + 1);
  }

  // ---- series of requests ------------------------------------------------------------------------

  function StoreAfterVisits(userLimit: int, ipLimit: int, visits: seq<Visit>): Store {
    if visits == [] then map[]
    else Serve(StoreAfterVisits(userLimit, ipLimit, visits[..|visits| - 1]), userLimit, ipLimit, visits[|visits| - 1]).0
  }

  /** How many requests of a user there were in a minute, and how many from an address. */
  function UserVisits(visits: seq<Visit>, user: string, minute: nat): nat {
    |Filter(visits, (v: Visit) => v.userId == Some(user) && v.userAt / 60_000 == minute)|
  }

  function IpVisits(visits: seq<Visit>, ip: string, minute: nat): nat {
    |Filter(visits, (v: Visit) => v.ip == ip && v.ipAt / 60_000 == minute)|
  }

  /** The checks of a series of requests. */
  function HitsOf(visits: seq<Visit>): seq<Hit> {
    if visits == [] then [] else HitsOf(visits[..|visits| - 1]) + HitsOfOne(visits[|visits| - 1])
  }

  function HitsOfOne(v: Visit): seq<Hit> {
    (if v.userId.Some? && v.userId.value != "" then [Hit(UserScope, v.userId.value, v.userAt)] else [])
    + [Hit(IpScope, v.ip, v.ipAt)]
  }

  lemma {:induction false} ServeKeepsCounts(store: Store, hits: seq<Hit>, userLimit: int, ipLimit: int, v: Visit)
    requires Counts(store, hits)
    ensures Counts(Serve(store, userLimit, ipLimit, v).0, hits + HitsOfOne(v))
  {
    var address := Hit(IpScope, v.ip, v.ipAt);
    if v.userId.Some? && v.userId.value != "" {
      var user := Hit(UserScope, v.userId.value, v.userAt);
      CheckKeepsCounts(store, hits, user, userLimit);
      CheckKeepsCounts(Check(store, UserScope, user.id, userLimit, user.now).0, hits + [user], address, ipLimit);
      assert hits + [user] + [address] == hits + HitsOfOne(v);
    } else {
      CheckKeepsCounts(store, hits, address, ipLimit);
      assert [address] == HitsOfOne(v);
    }
  }

  lemma {:induction false} VisitsCount(userLimit: int, ipLimit: int, visits: seq<Visit>)
    ensures Counts(StoreAfterVisits(userLimit, ipLimit, visits), HitsOf(visits))
  {
    if visits == [] {
      StoreCounts((scope: Scope) => 0, []);
    } else {
      VisitsCount(userLimit, ipLimit, visits[..|visits| - 1]);
      ServeKeepsCounts(StoreAfterVisits(userLimit, ipLimit, visits[..|visits| - 1]), HitsOf(visits[..|visits| - 1]),
                       userLimit, ipLimit, visits[|visits| - 1]);
    }
  }

  lemma {:induction false} UserVisitsSnoc(front: seq<Visit>, v: Visit, user: string, minute: nat)
    ensures UserVisits(front + [v], user, minute)
         == UserVisits(front, user, minute) + if v.userId == Some(user) && v.userAt / 60_000 == minute then 1 else 0
  {
    FilterConcat(front, [v], (v: Visit) => v.userId == Some(user) && v.userAt / 60_000 == minute);
  }

  lemma {:induction false} IpVisitsSnoc(front: seq<Visit>, v: Visit, ip: string, minute: nat)
    ensures IpVisits(front + [v], ip, minute)
         == IpVisits(front, ip, minute) + if v.ip == ip && v.ipAt / 60_000 == minute then 1 else 0
  {
    FilterConcat(front, [v], (v: Visit) => v.ip == ip && v.ipAt / 60_000 == minute);
  }

  lemma {:induction false} CountOfOne(hits: seq<Hit>, v: Visit, scope: Scope, id: string, window: nat)
    ensures Count(hits + HitsOfOne(v), scope, id, window)
         == Count(hits, scope, id, window)
            + (if scope == UserScope && id != "" && v.userId == Some(id) && WindowOf(v.userAt) == window then 1 else 0)
            + (if scope == IpScope && v.ip == id && WindowOf(v.ipAt) == window then 1 else 0)
  {
    var address := Hit(IpScope, v.ip, v.ipAt);
    if v.userId.Some? && v.userId.value != "" {
      var user := Hit(UserScope, v.userId.value, v.userAt);
      assert hits + HitsOfOne(v) == hits + [user] + [address];
      CountSnoc(hits, user, scope, id, window);
      CountSnoc(hits + [user], address, scope, id, window);
    } else {
      assert HitsOfOne(v) == [address];
      CountSnoc(hits, address, scope, id, window);
    }
  }

  /** The counters count requests: those of a user, and those from an address. */
  lemma {:induction false} HitsAreVisits(visits: seq<Visit>, id: string, window: nat)
    ensures id != "" ==> Count(HitsOf(visits), UserScope, id, window) == UserVisits(visits, id, window)
    ensures Count(HitsOf(visits), IpScope, id, window) == IpVisits(visits, id, window)
  {
    if visits != [] {
      var front, v := visits[..|visits| - 1], visits[|visits| - 1];
      assert visits == front + [v];
      HitsAreVisits(front, id, window);
      CountOfOne(HitsOf(front), v, UserScope, id, window);
      CountOfOne(HitsOf(front), v, IpScope, id, window);
      UserVisitsSnoc(front, v, id, window);
      IpVisitsSnoc(front, v, id, window);
    }
  }

  /** The exact answer to a request that names a user, after any series of requests: refused for the
      user if it is beyond the user's limit in its minute, else for the address if it is beyond that
      one's, else forwarded with what is left to the user. */
  lemma {:induction false} SignedInAnswer(userLimit: int, ipLimit: int, visits: seq<Visit>, v: Visit)
    requires v.userId.Some? && v.userId.value != ""
    ensures
      var minute, ipMinute := v.userAt / 60_000, v.ipAt / 60_000;
      var n, m := UserVisits(visits + [v], v.userId.value, minute), IpVisits(visits + [v], v.ip, ipMinute);
      Serve(StoreAfterVisits(userLimit, ipLimit, visits), userLimit, ipLimit, v).1
        == if n > userLimit then Denied(UserScope, userLimit, (minute + 1) * 60)
           else if m > ipLimit then Denied(IpScope, ipLimit, (ipMinute + 1) * 60)
           else Forwarded(userLimit, userLimit - n, (minute + 1) * 60)
  {
    var store, hits, user := StoreAfterVisits(userLimit, ipLimit, visits), HitsOf(visits), v.userId.value;
    var hit := Hit(UserScope, user, v.userAt);
    VisitsCount(userLimit, ipLimit, visits);
    CheckSeesCount(store, hits, UserScope, user, userLimit, v.userAt);
    CheckKeepsCounts(store, hits, hit, userLimit);
    CheckSeesCount(Check(store, UserScope, user, userLimit, v.userAt).0, hits + [hit], IpScope, v.ip, ipLimit, v.ipAt);
    CountSnoc(hits, hit, IpScope, v.ip, WindowOf(v.ipAt));
    HitsAreVisits(visits, user, WindowOf(v.userAt));
    HitsAreVisits(visits, v.ip, WindowOf(v.ipAt));
    UserVisitsSnoc(visits, v, user, v.userAt / 60_000);
    IpVisitsSnoc(visits, v, v.ip, v.ipAt / 60_000);
  }

  /** And to one that names none: only the address counts. */
  lemma {:induction false} AnonymousAnswer(userLimit: int, ipLimit: int, visits: seq<Visit>, v: Visit)
    requires v.userId == None || v.userId == Some("")
    ensures
      var ipMinute := v.ipAt / 60_000;
      var m := IpVisits(visits + [v], v.ip, ipMinute);
      Serve(StoreAfterVisits(userLimit, ipLimit, visits), userLimit, ipLimit, v).1
        == if m > ipLimit then Denied(IpScope, ipLimit, (ipMinute + 1) * 60)
           else Forwarded(ipLimit, ipLimit - m, (ipMinute + 1) * 60)
  {
    VisitsCount(userLimit, ipLimit, visits);
    CheckSeesCount(StoreAfterVisits(userLimit, ipLimit, visits), HitsOf(visits), IpScope, v.ip, ipLimit, v.ipAt);
    HitsAreVisits(visits, v.ip, WindowOf(v.ipAt));
    IpVisitsSnoc(visits, v, v.ip, v.ipAt / 60_000);
  }

  /** A check sets its own key, to the number of checks of its window, and no other. */
  lemma {:induction false} CheckSets(store: Store, hits: seq<Hit>, h: Hit, limit: int)
    requires Counts(store, hits)
    ensures Check(store, h.scope, h.id, limit, h.now).0
         == store[KeyText(h.scope, h.id, WindowOf(h.now)) :=
                    Entry(Count(hits + [h], h.scope, h.id, WindowOf(h.now)), h.now + 90_000)]
  {
    LiveCounterIsRead(store, hits, h.scope, h.id, h.now);
    CountSnoc(hits, h, h.scope, h.id, WindowOf(h.now));
  }

  /** A counter can be read for 90 seconds after its last check, and then it is gone. */
  lemma {:induction false} CounterLives(limits: Limits, hits: seq<Hit>, h: Hit, now: nat)
    ensures
      var key := KeyText(h.scope, h.id, WindowOf(h.now));
      Get(StoreAfter(limits, hits + [h]), key, now)
        == if now < h.now + 90_000 then Count(hits + [h], h.scope, h.id, WindowOf(h.now)) else 0
  {
    assert (hits + [h])[..|hits|] == hits;
    StoreCounts(limits, hits);
    CheckSets(StoreAfter(limits, hits), hits, h, limits(h.scope));
  }

  lemma {:induction false} VisitCounts(visits: seq<Visit>, v: Visit)
    ensures v.userId.Some? && v.userId.value != "" ==>
              Count(HitsOf(visits) + [Hit(UserScope, v.userId.value, v.userAt)], UserScope, v.userId.value,
                    WindowOf(v.userAt)) == UserVisits(visits + [v], v.userId.value, v.userAt / 60_000)
    ensures Count(HitsOf(visits) + HitsOfOne(v), IpScope, v.ip, WindowOf(v.ipAt))
         == IpVisits(visits + [v], v.ip, v.ipAt / 60_000)
  {
    HitsAreVisits(visits + [v], v.ip, WindowOf(v.ipAt));
    assert (visits + [v])[..|visits|] == visits;
    if v.userId.Some? && v.userId.value != "" {
      var user := v.userId.value;
      HitsAreVisits(visits, user, WindowOf(v.userAt));
      UserVisitsSnoc(visits, v, user, v.userAt / 60_000);
      CountSnoc(HitsOf(visits), Hit(UserScope, user, v.userAt), UserScope, user, WindowOf(v.userAt));
    }
  }

  lemma {:induction false} ServeSets(store: Store, hits: seq<Hit>, userLimit: int, ipLimit: int, v: Visit)
    requires Counts(store, hits) && v.userId.Some? && v.userId.value != ""
    ensures
      var user, all := Hit(UserScope, v.userId.value, v.userAt), hits + HitsOfOne(v);
      Serve(store, userLimit, ipLimit, v).0
        == store[KeyText(UserScope, user.id, WindowOf(v.userAt)) :=
                   Entry(Count(hits + [user], UserScope, user.id, WindowOf(v.userAt)), v.userAt + 90_000)]
                [KeyText(IpScope, v.ip, WindowOf(v.ipAt)) :=
                   Entry(Count(all, IpScope, v.ip, WindowOf(v.ipAt)), v.ipAt + 90_000)]
  {
    var user, address := Hit(UserScope, v.userId.value, v.userAt), Hit(IpScope, v.ip, v.ipAt);
    assert hits + HitsOfOne(v) == hits + [user] + [address];
    CheckSets(store, hits, user, userLimit);
    CheckKeepsCounts(store, hits, user, userLimit);
    CheckSets(Check(store, UserScope, user.id, userLimit, v.userAt).0, hits + [user], address, ipLimit);
  }

  /** What a request that names a user writes, under which keys and for how long: its user's counter
      of the minute, and its address's.  Every other key is left alone. */
  lemma {:induction false} CountersMoved(userLimit: int, ipLimit: int, visits: seq<Visit>, v: Visit)
    requires v.userId.Some? && v.userId.value != ""
    ensures
      var store := StoreAfterVisits(userLimit, ipLimit, visits);
      var user, minute, ipMinute := v.userId.value, v.userAt / 60_000, v.ipAt / 60_000;
      Serve(store, userLimit, ipLimit, v).0
        == store["user:" + user + ":" + Decimal.Show(minute) :=
                   Entry(UserVisits(visits + [v], user, minute), v.userAt + 90_000)]
                ["ip:" + v.ip + ":" + Decimal.Show(ipMinute) :=
                   Entry(IpVisits(visits + [v], v.ip, ipMinute), v.ipAt + 90_000)]
  {
    VisitsCount(userLimit, ipLimit, visits);
    VisitCounts(visits, v);
    KeysAre(v.ip, WindowOf(v.ipAt));
    KeysAre(v.userId.value, WindowOf(v.userAt));
    ServeSets(StoreAfterVisits(userLimit, ipLimit, visits), HitsOf(visits), userLimit, ipLimit, v);
  }

  /** And one that names none: only its address's. */
  lemma {:induction false} AddressCounterMoved(userLimit: int, ipLimit: int, visits: seq<Visit>, v: Visit)
    requires v.userId == None || v.userId == Some("")
    ensures
      var store, ipMinute := StoreAfterVisits(userLimit, ipLimit, visits), v.ipAt / 60_000;
      Serve(store, userLimit, ipLimit, v).0
        == store["ip:" + v.ip + ":" + Decimal.Show(ipMinute) :=
                   Entry(IpVisits(visits + [v], v.ip, ipMinute), v.ipAt + 90_000)]
  {
    VisitsCount(userLimit, ipLimit, visits);
    VisitCounts(visits, v);
    KeysAre(v.ip, WindowOf(v.ipAt));
    CheckSets(StoreAfterVisits(userLimit, ipLimit, visits), HitsOf(visits), Hit(IpScope, v.ip, v.ipAt), ipLimit);
    assert HitsOfOne(v) == [Hit(IpScope, v.ip, v.ipAt)];
  }

  lemma {:induction false} KeysAre(id: string, window: nat)
    ensures KeyText(UserScope, id, window) == "user:" + id + ":" + Decimal.Show(window)
    ensures KeyText(IpScope, id, window) == "ip:" + id + ":" + Decimal.Show(window)
  {
    assert "user" + ":" == "user:" && "ip" + ":" == "ip:";
  }

  // ---- the bound is met ------------------------------------------------------------------------

  function Burst(scope: Scope, id: string, now: nat, n: nat): seq<Hit> {
    seq(n, _ => Hit(scope, id, now))
  }

  lemma {:induction false} OneMoreIsAdmitted(limits: Limits, front: seq<Hit>, h: Hit, start: nat)
    requires Count(front, h.scope, h.id, WindowOf(h.now)) < limits(h.scope)
    requires InSpan(h, h.scope, h.id, start)
    ensures Count(front + [h], h.scope, h.id, WindowOf(h.now)) == Count(front, h.scope, h.id, WindowOf(h.now)) + 1
    ensures AdmittedInSpan(limits, front + [h], h.scope, h.id, start)
         == AdmittedInSpan(limits, front, h.scope, h.id, start) + 1
  {
    CountSnoc(front, h, h.scope, h.id, WindowOf(h.now));
    ExactAdmission(limits, front, h);
    assert (front + [h])[..|front|] == front;
  }

  /** `n` allowed checks in a row at one moment. */
  lemma {:induction false} BurstIsAdmitted(limits: Limits, before: seq<Hit>, scope: Scope, id: string, now: nat, n: nat,
          start: nat)
    requires Count(before, scope, id, WindowOf(now)) == 0 && n <= limits(scope)
    requires start <= now < start + WINDOW_MS
    ensures
      var hits := before + Burst(scope, id, now, n);
      && Count(hits, scope, id, WindowOf(now)) == n
      && AdmittedInSpan(limits, hits, scope, id, start) == AdmittedInSpan(limits, before, scope, id, start) + n
  {
    if n == 0 {
      assert before + Burst(scope, id, now, 0) == before;
    } else {
      BurstIsAdmitted(limits, before, scope, id, now, n - 1, start);
      var front := before + Burst(scope, id, now, n - 1);
      assert before + Burst(scope, id, now, n) == front + [Hit(scope, id, now)];
      OneMoreIsAdmitted(limits, front, Hit(scope, id, now), start);
    }
  }

  lemma {:induction false} NoneElsewhere(scope: Scope, id: string, now: nat, n: nat, window: nat)
    requires WindowOf(now) != window
    ensures Count(Burst(scope, id, now, n), scope, id, window) == 0
  {
    if n > 0 {
      NoneElsewhere(scope, id, now, n - 1, window);
      assert Burst(scope, id, now, n)[..n - 1] == Burst(scope, id, now, n - 1);
    }
  }

  /** `limit` checks just before a window ends and `limit` just after: twice the limit within a
      millisecond. */
  lemma {:induction false} BoundIsMet(limits: Limits, scope: Scope, id: string)
    requires limits(scope) >= 0
    ensures
      var n := limits(scope);
      var hits := Burst(scope, id, 59_999, n) + Burst(scope, id, 60_000, n);
      AdmittedInSpan(limits, hits, scope, id, 59_999) == 2 * n
  {
    var n := limits(scope);
    BurstIsAdmitted(limits, [], scope, id, 59_999, n, 59_999);
    assert [] + Burst(scope, id, 59_999, n) == Burst(scope, id, 59_999, n);
    NoneElsewhere(scope, id, 59_999, n, 1);
    BurstIsAdmitted(limits, Burst(scope, id, 59_999, n), scope, id, 60_000, n, 59_999);
  }
}
