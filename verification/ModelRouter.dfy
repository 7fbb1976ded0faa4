/**
 Model registry and router (agentcook-core/src/agentcook_core/model_router.py): filtering,
 selection under four policies, exhaustive fallback and fair round robin.
 */
module ModelRouter {
  import opened Wrappers
  import opened Seqs
  import opened StableSort
  import opened OrderedDict

  datatype Policy = CostOptimized | QualityFirst | RoundRobin | FallbackChain

  datatype ModelConfig = ModelConfig(
    name: string, provider: string, costPer1k: real, maxTokens: int, qualityScore: int, fallbackOrder: int,
    tags: set<string>, enabled: bool)

  type Models = Dict<string, ModelConfig>

  /** Filters of a request; an absent or empty provider or tag filters nothing. */
  datatype Query = Query(provider: Option<string>, tag: Option<string>, exclude: set<string>)

  type Checker = string -> bool

  /** Names are unique because they are the dictionary's keys. */
  ghost predicate Registered(models: Models) {
    Unique(models) && forall i :: 0 <= i < |models| ==> models[i].0 == models[i].1.name
  }

  function ConfigOf(): ((string, ModelConfig)) -> ModelConfig {
    (entry: (string, ModelConfig)) => entry.1
  }

  function IsEnabled(q: Query): ModelConfig -> bool {
    (m: ModelConfig) =>
      && m.enabled
      && (q.provider.Some? && q.provider.value != "" ==> m.provider == q.provider.value)
      && (q.tag.Some? && q.tag.value != "" ==> q.tag.value in m.tags)
  }

  function NotIn(exclude: set<string>): ModelConfig -> bool {
    (m: ModelConfig) => m.name !in exclude
  }

  function IsUp(checker: Checker): ModelConfig -> bool {
    (m: ModelConfig) => checker(m.name)
  }

  function Enabled(models: Models, q: Query): seq<ModelConfig> {
    Filter(Map(models, ConfigOf()), IsEnabled(q))
  }

  function Candidates(models: Models, q: Query): seq<ModelConfig> {
    Filter(Enabled(models, q), NotIn(q.exclude))
  }

  function Available(models: Models, q: Query, checker: Checker): seq<ModelConfig> {
    Filter(Candidates(models, q), IsUp(checker))
  }

  // ---- policies ------------------------------------------------------------------------------

  /** Python's `min` with a key: the first of the least. */
  function FirstMin(models: seq<ModelConfig>, leq: (ModelConfig, ModelConfig) -> bool): (m: ModelConfig)
    requires models != []
    ensures m in models
  {
    if |models| == 1 then models[0] else
      var m := FirstMin(models[1..], leq);
      if leq(models[0], m) then models[0] else m
  }

  function ByCost(): (ModelConfig, ModelConfig) -> bool {
    (a: ModelConfig, b: ModelConfig) => a.costPer1k <= b.costPer1k
  }

  function ByQuality(): (ModelConfig, ModelConfig) -> bool {
    (a: ModelConfig, b: ModelConfig) => a.qualityScore >= b.qualityScore
  }

  function ByFallbackOrder(): (ModelConfig, ModelConfig) -> bool {
    (a: ModelConfig, b: ModelConfig) => a.fallbackOrder <= b.fallbackOrder
  }

  function ByName(): (ModelConfig, ModelConfig) -> bool {
    (a: ModelConfig, b: ModelConfig) => TextLeq(a.name, b.name)
  }

  function Pick(models: seq<ModelConfig>, policy: Policy, counter: nat): ModelConfig
    requires models != []
  {
    match policy
    case CostOptimized => FirstMin(models, ByCost())
    case QualityFirst => FirstMin(models, ByQuality())
    case RoundRobin => Sort(models, ByName())[counter % |models|]
    case FallbackChain => FirstMin(models, ByFallbackOrder())
  }

  datatype Routing =
    | Selected(model: ModelConfig, triedUnavailable: seq<string>)
    | NoEligibleModel
    | AllUnavailable(names: seq<string>)

  function NameOf(): ModelConfig -> string {
    (m: ModelConfig) => m.name
  }

  /** What a selection returns, and the round-robin counter afterwards. */
  function Select(models: Models, policy: Policy, q: Query, checker: Checker, counter: nat): (Routing, nat) {
    var candidates, available := Candidates(models, q), Available(models, q, checker);
    if candidates == [] then (NoEligibleModel, counter)
    else if available == [] then (AllUnavailable(Map(candidates, NameOf())), counter)
    else
      (Selected(Pick(available, policy, counter),
              Map(Filter(candidates, NotIn(set m | m in available :: m.name)), NameOf())),
       if policy.RoundRobin? then counter + 1 else counter)
  }

  // ---- the classes ---------------------------------------------------------------------------

  class ModelRegistry {
    var models: Models

    constructor ()
      ensures models == [] && Registered(models)
    {
      models := [];
    }

    /** Registers a model; a name already known keeps its place and gets the new config, a new one
        goes to the end. */
    method Register(config: ModelConfig)
      requires Registered(models)
      modifies this
      ensures Registered(models)
      ensures forall name :: Lookup(models, name)
                == if name == config.name then Some(config) else Lookup(old(models), name)
      ensures Keys(models) == if Lookup(old(models), config.name).Some? then Keys(old(models))
                              else Keys(old(models)) + [config.name]
    {
      WriteKeepsUnique(models, config.name, config);
      WriteKeepsOrder(models, config.name, config);
      forall name
        ensures Lookup(Write(models, config.name, config), name)
             == if name == config.name then Some(config) else Lookup(models, name)
      {
        LookupAfterWrite(models, config.name, config, name);
      }
      models := Write(models, config.name, config);
    }

    method Unregister(name: string) returns (removed: Option<ModelConfig>)
      requires Registered(models)
      modifies this
      ensures Registered(models) && removed == Lookup(old(models), name)
      ensures forall other :: Lookup(models, other) == if other == name then None else Lookup(old(models), other)
      ensures Keys(models) == Filter(Keys(old(models)), Other(name))
    {
      removed := Lookup(models, name);
      RemoveKeepsUnique(models, name);
      RemoveKeepsOrder(models, name);
      forall other
        ensures Lookup(Remove(models, name), other) == if other == name then None else Lookup(models, other)
      {
        LookupAfterRemove(models, name, other);
      }
      models := Remove(models, name);
    }

    method ListEnabled(q: Query) returns (result: seq<ModelConfig>)
      ensures result == Enabled(models, q)
    {
      result := [];
      var all := Map(models, ConfigOf());
      for i := 0 to |all|
        invariant result == Filter(all[..i], IsEnabled(q))
      {
        FilterSnoc(all, i, IsEnabled(q));
        var model := all[i];
        if !model.enabled {
          continue;
        }
        if q.provider.Some? && q.provider.value != "" && model.provider != q.provider.value {
          continue;
        }
        if q.tag.Some? && q.tag.value != "" && q.tag.value !in model.tags {
          continue;
        }
        result := result + [model];
      }
      assert all[..|all|] == all;
    }
  }

  class Router {
    const registry: ModelRegistry
    const policy: Policy
    const checker: Checker
    var roundRobinCounter: nat

    constructor (registry: ModelRegistry, policy: Policy, checker: Checker)
      ensures this.registry == registry && this.policy == policy && this.checker == checker
      ensures roundRobinCounter == 0
    {
      this.registry, this.policy, this.checker := registry, policy, checker;
      roundRobinCounter := 0;
    }

    method SelectModel(override: Option<Policy>, q: Query) returns (r: Routing)
      modifies this
      ensures
        var active := if override.Some? then override.value else policy;
        (r, roundRobinCounter) == Select(old(registry.models), active, q, checker, old(roundRobinCounter))
    {
      var active := if override.Some? then override.value else policy;
      var enabled := registry.ListEnabled(q);
      var candidates := Filter(enabled, NotIn(q.exclude));
      if candidates == [] {
        return NoEligibleModel;
      }
      var available := Filter(candidates, IsUp(checker));
      var up := set m | m in available :: m.name;
      var triedUnavailable := Map(Filter(candidates, NotIn(up)), NameOf());
      if available == [] {
        return AllUnavailable(Map(candidates, NameOf()));
      }
      var selected := ApplyPolicy(available, active);
      return Selected(selected, triedUnavailable);
    }

    method SelectWithFallback(provider: Option<string>, tag: Option<string>, failed: seq<string>) returns (r: Routing)
      modifies this
      ensures (r, roundRobinCounter)
           == Select(old(registry.models), FallbackChain, Query(provider, tag, set n | n in failed), checker,
                   old(roundRobinCounter))
    {
      r := SelectModel(Some(FallbackChain), Query(provider, tag, set n | n in failed));
    }

    method ApplyPolicy(models: seq<ModelConfig>, active: Policy) returns (m: ModelConfig)
      requires models != []
      modifies this
      ensures m == Pick(models, active, old(roundRobinCounter))
      ensures roundRobinCounter == if active.RoundRobin? then old(roundRobinCounter) + 1 else old(roundRobinCounter)
    {
      match active {
        case CostOptimized => m := FirstMin(models, ByCost());
        case QualityFirst => m := FirstMin(models, ByQuality());
        case RoundRobin =>
          var idx := roundRobinCounter % |models|;
          roundRobinCounter := roundRobinCounter + 1;
          m := Sort(models, ByName())[idx];
        case FallbackChain => m := FirstMin(models, ByFallbackOrder());
      }
    }
  }

  // ---- what a selection means ------------------------------------------------------------------

  function IsDown(checker: Checker): ModelConfig -> bool {
    (m: ModelConfig) => !checker(m.name)
  }

  /** `FirstMin` ranks no later than anything in the list, and strictly before what precedes it. */
  lemma {:induction false} FirstMinIsFirst(models: seq<ModelConfig>, leq: (ModelConfig, ModelConfig) -> bool)
    returns (i: nat)
    requires models != [] && TotalPreorder(leq)
    ensures i < |models| && models[i] == FirstMin(models, leq)
    ensures forall j :: 0 <= j < |models| ==> leq(models[i], models[j])
    ensures forall j :: 0 <= j < i ==> !leq(models[j], models[i])
  {
    i := 0;
    if |models| > 1 {
      var k := FirstMinIsFirst(models[1..], leq);
      assert forall j :: 1 <= j < |models| ==> models[j] == models[1..][j - 1];
      if !leq(models[0], models[k + 1]) {
        i := k + 1;
      }
    }
  }

  ghost predicate IsRegistered(models: Models, m: ModelConfig) {
    exists i :: 0 <= i < |models| && models[i].1 == m
  }

  /** A registered model that is enabled, of the provider and with the tag asked for, if any is, and
      not excluded. */
  ghost predicate Wanted(models: Models, q: Query, m: ModelConfig) {
    && IsRegistered(models, m)
    && m.enabled
    && (q.provider == None || q.provider == Some("") || q.provider == Some(m.provider))
    && (q.tag == None || q.tag == Some("") || q.tag.value in m.tags)
    && m.name !in q.exclude
  }

  lemma {:induction false} CandidatesAreWanted(models: Models, q: Query, checker: Checker)
    ensures forall m :: m in Candidates(models, q) <==> Wanted(models, q, m)
    ensures forall m :: m in Available(models, q, checker) <==> Wanted(models, q, m) && checker(m.name)
  {
    var all := Map(models, ConfigOf());
    FilterMembers(all, IsEnabled(q));
    FilterMembers(Enabled(models, q), NotIn(q.exclude));
    FilterMembers(Candidates(models, q), IsUp(checker));
    forall m
      ensures m in all <==> IsRegistered(models, m)
    {
      if IsRegistered(models, m) {
        var i :| 0 <= i < |models| && models[i].1 == m;
        assert all[i] == m;
      }
    }
  }

  lemma {:induction false} NonEmptyIff(models: seq<ModelConfig>)
    ensures models != [] <==> exists m :: m in models
  {
    if models != [] {
      assert models[0] in models;
    }
  }

  /** One model is selected exactly when some wanted model is up; otherwise the error tells whether
      none is wanted or all wanted ones are down. */
  lemma {:induction false} SelectedIff(models: Models, policy: Policy, q: Query, checker: Checker, counter: nat)
    ensures
      var routing := Select(models, policy, q, checker, counter).0;
      && (routing.Selected? <==> exists m :: Wanted(models, q, m) && checker(m.name))
      && (routing.NoEligibleModel? <==> forall m :: !Wanted(models, q, m))
  {
    CandidatesAreWanted(models, q, checker);
    NonEmptyIff(Candidates(models, q));
    NonEmptyIff(Available(models, q, checker));
  }

  lemma {:induction false} NamesOf(models: seq<ModelConfig>, name: string)
    ensures name in Map(models, NameOf()) <==> exists m :: m in models && m.name == name
  {
    if m :| m in models && m.name == name {
      var i :| 0 <= i < |models| && models[i] == m;
      assert Map(models, NameOf())[i] == name;
    }
  }

  lemma {:induction false} TriedAreDown(candidates: seq<ModelConfig>, checker: Checker)
    ensures
      var up := set m | m in Filter(candidates, IsUp(checker)) :: m.name;
      Filter(candidates, NotIn(up)) == Filter(candidates, IsDown(checker))
  {
    var available := Filter(candidates, IsUp(checker));
    var up := set m | m in available :: m.name;
    FilterMembers(candidates, IsUp(checker));
    forall i | 0 <= i < |candidates|
      ensures NotIn(up)(candidates[i]) == IsDown(checker)(candidates[i])
    {
      if checker(candidates[i].name) {
        assert candidates[i] in available;
      }
    }
    FilterAgrees(candidates, NotIn(up), IsDown(checker));
  }

  /** The names reported as tried beside a selected model are those of the wanted models that are
      down, and those reported when all are down are the names of all wanted models. */
  lemma {:induction false} ReportedNames(models: Models, policy: Policy, q: Query, checker: Checker, counter: nat,
          name: string)
    ensures
      var routing := Select(models, policy, q, checker, counter).0;
      var known := exists m :: Wanted(models, q, m) && m.name == name;
      && (routing.Selected? ==> (name in routing.triedUnavailable <==> known && !checker(name)))
      && (routing.AllUnavailable? ==> (name in routing.names <==> known))
  {
    var candidates := Candidates(models, q);
    CandidatesAreWanted(models, q, checker);
    TriedAreDown(candidates, checker);
    FilterMembers(candidates, IsDown(checker));
    NamesOf(Filter(candidates, IsDown(checker)), name);
    NamesOf(candidates, name);
  }

  lemma {:induction false} PickIsBest(available: seq<ModelConfig>, policy: Policy, counter: nat)
    requires available != []
    ensures
      var m := Pick(available, policy, counter);
      && m in available
      && forall j :: 0 <= j < |available| ==>
           && (policy.CostOptimized? ==> m.costPer1k <= available[j].costPer1k)
           && (policy.QualityFirst? ==> m.qualityScore >= available[j].qualityScore)
           && (policy.FallbackChain? ==> m.fallbackOrder <= available[j].fallbackOrder)
  {
    match policy {
      case CostOptimized => var i := FirstMinIsFirst(available, ByCost());
      case QualityFirst => var i := FirstMinIsFirst(available, ByQuality());
      case FallbackChain => var i := FirstMinIsFirst(available, ByFallbackOrder());
      case RoundRobin =>
        SortKeepsElements(available, ByName());
        assert Sort(available, ByName())[counter % |available|] in multiset(Sort(available, ByName()));
    }
  }

  /** A selected model is wanted and up, and it is the cheapest, the best, or the first in fallback
      order of all that are, as the policy asks. */
  lemma {:induction false} SelectedIsBest(models: Models, policy: Policy, q: Query, checker: Checker, counter: nat)
    requires Select(models, policy, q, checker, counter).0.Selected?
    ensures
      var best := Select(models, policy, q, checker, counter).0.model;
      && Wanted(models, q, best) && checker(best.name)
      && forall m :: Wanted(models, q, m) && checker(m.name) ==>
           && (policy.CostOptimized? ==> best.costPer1k <= m.costPer1k)
           && (policy.QualityFirst? ==> best.qualityScore >= m.qualityScore)
           && (policy.FallbackChain? ==> best.fallbackOrder <= m.fallbackOrder)
  {
    var available := Available(models, q, checker);
    CandidatesAreWanted(models, q, checker);
    PickIsBest(available, policy, counter);
  }

  // ---- exhaustive fallback -------------------------------------------------------------------

  ghost predicate DistinctNames(models: seq<ModelConfig>) {
    forall i, j :: 0 <= i < j < |models| ==> models[i].name != models[j].name
  }

  function NotNamed(name: string): ModelConfig -> bool {
    (m: ModelConfig) => m.name != name
  }

  lemma {:induction false} FilterKeepsDistinct(models: seq<ModelConfig>, p: ModelConfig -> bool)
    requires DistinctNames(models)
    ensures DistinctNames(Filter(models, p))
  {
    if models != [] {
      FilterKeepsDistinct(models[1..], p);
      FilterMembers(models[1..], p);
      var rest := Filter(models[1..], p);
      forall j | 0 <= j < |rest|
        ensures rest[j].name != models[0].name
      {
        assert rest[j] in rest;
        var i :| 0 <= i < |models[1..]| && models[1..][i] == rest[j];
        assert models[i + 1] == rest[j];
      }
    }
  }

  /** Taking the first minimum out of a list and going on is stable sorting. */
  lemma {:induction false} SortTakesFirstMin(models: seq<ModelConfig>, leq: (ModelConfig, ModelConfig) -> bool)
    requires models != [] && DistinctNames(models)
    ensures
      var m := FirstMin(models, leq);
      Sort(models, leq) == [m] + Sort(Filter(models, NotNamed(m.name)), leq)
  {
    var x, rest := models[0], models[1..];
    var m := FirstMin(models, leq);
    if rest == [] {
      assert Filter(models, NotNamed(m.name)) == [];
      assert models == [x];
    } else {
      assert forall i :: 0 <= i < |rest| ==> rest[i] == models[i + 1];
      SortTakesFirstMin(rest, leq);
      var least := FirstMin(rest, leq);
      if leq(x, least) {
        FilterAll(rest, NotNamed(x.name));
        assert Filter(models, NotNamed(x.name)) == [] + rest == rest;
        assert Sort(rest, leq)[0] == least;
      } else {
        var i :| 0 <= i < |rest| && rest[i] == least;
        assert x.name != models[i + 1].name;
        var left := Filter(rest, NotNamed(least.name));
        assert Filter(models, NotNamed(least.name)) == [x] + left;
        assert ([x] + left)[1..] == left;
      }
    }
  }

  lemma {:induction false} FilterOutShrinks(models: seq<ModelConfig>, m: ModelConfig)
    requires m in models
    ensures |Filter(models, NotNamed(m.name))| < |models|
  {
    if models[0] != m {
      FilterOutShrinks(models[1..], m);
    }
  }

  /** Excluding one more name takes exactly that model away. */
  lemma {:induction false} ExcludeOneMore(models: Models, q: Query, checker: Checker, name: string)
    ensures Available(models, q.(exclude := q.exclude + {name}), checker)
         == Filter(Available(models, q, checker), NotNamed(name))
  {
    var enabled := Enabled(models, q);
    var more := q.(exclude := q.exclude + {name});
    FilterAgrees(Map(models, ConfigOf()), IsEnabled(q), IsEnabled(more));
    var both := (m: ModelConfig) => m.name !in q.exclude && checker(m.name);
    var all := (m: ModelConfig) => m.name !in more.exclude && checker(m.name);
    FilterTwice(enabled, NotIn(q.exclude), IsUp(checker), both);
    FilterTwice(enabled, NotIn(more.exclude), IsUp(checker), all);
    FilterTwice(enabled, both, NotNamed(name), all);
  }

  /** What a caller meets who asks again and again, each time adding the model it was given to
      the failed ones, until the router raises. */
  function Visits(models: Models, q: Query, checker: Checker): seq<ModelConfig>
    decreases |Available(models, q, checker)|
  {
    match Select(models, FallbackChain, q, checker, 0).0
    case Selected(m, _) =>
      ExcludeOneMore(models, q, checker, m.name);
      FilterOutShrinks(Available(models, q, checker), m);
      [m] + Visits(models, q.(exclude := q.exclude + {m.name}), checker)
    case _ => []
  }

  lemma {:induction false} RegisteredIsDistinct(models: Models, q: Query, checker: Checker)
    requires Registered(models)
    ensures DistinctNames(Available(models, q, checker))
  {
    var all := Map(models, ConfigOf());
    assert forall i :: 0 <= i < |models| ==> all[i].name == models[i].0;
    FilterKeepsDistinct(all, IsEnabled(q));
    FilterKeepsDistinct(Enabled(models, q), NotIn(q.exclude));
    FilterKeepsDistinct(Candidates(models, q), IsUp(checker));
  }

  lemma {:induction false} VisitsAreSorted(models: Models, q: Query, checker: Checker)
    requires Registered(models)
    ensures Visits(models, q, checker) == Sort(Available(models, q, checker), ByFallbackOrder())
    decreases |Available(models, q, checker)|
  {
    var available := Available(models, q, checker);
    RegisteredIsDistinct(models, q, checker);
    if available == [] {
      assert Filter([], IsUp(checker)) == [];
    } else {
      assert Candidates(models, q) != [];
      var m := FirstMin(available, ByFallbackOrder());
      ExcludeOneMore(models, q, checker, m.name);
      FilterOutShrinks(available, m);
      VisitsAreSorted(models, q.(exclude := q.exclude + {m.name}), checker);
      SortTakesFirstMin(available, ByFallbackOrder());
    }
  }

  lemma {:induction false} SameMembers(a: seq<ModelConfig>, b: seq<ModelConfig>)
    requires multiset(a) == multiset(b)
    ensures forall m :: m in a <==> m in b
  {
    forall m
      ensures m in a <==> m in b
    {
      assert m in multiset(a) <==> m in multiset(b);
    }
  }

  /** The fallback is exhaustive: the caller meets every enabled, matching, available model
      exactly once, in ascending fallback order, models of equal order in registration order, and
      then the router raises. */
  lemma {:induction false} FallbackIsExhaustive(models: Models, q: Query, checker: Checker, order: int)
    requires Registered(models)
    ensures
      var visits, available := Visits(models, q, checker), Available(models, q, checker);
      var ofOrder := (m: ModelConfig) => m.fallbackOrder == order;
      && multiset(visits) == multiset(available)
      && (forall m :: m in visits <==> Wanted(models, q, m) && checker(m.name))
      && DistinctNames(available)
      && Sorted(visits, ByFallbackOrder())
      && Filter(visits, ofOrder) == Filter(available, ofOrder)
      && !Select(models, FallbackChain, q.(exclude := q.exclude + set m | m in available :: m.name), checker,
               0).0.Selected?
  {
    var available := Available(models, q, checker);
    VisitsAreSorted(models, q, checker);
    RegisteredIsDistinct(models, q, checker);
    SortKeepsElements(available, ByFallbackOrder());
    SameMembers(Visits(models, q, checker), available);
    CandidatesAreWanted(models, q, checker);
    SortSorts(available, ByFallbackOrder());
    SortIsStable(available, ByFallbackOrder(), (m: ModelConfig) => m.fallbackOrder == order);
    NothingLeft(models, q, checker);
  }

  lemma {:induction false} NothingLeft(models: Models, q: Query, checker: Checker)
    ensures
      var everyone := set m | m in Available(models, q, checker) :: m.name;
      Available(models, q.(exclude := q.exclude + everyone), checker) == []
  {
    var everyone := set m | m in Available(models, q, checker) :: m.name;
    var more := q.(exclude := q.exclude + everyone);
    var enabled := Enabled(models, q);
    FilterAgrees(Map(models, ConfigOf()), IsEnabled(q), IsEnabled(more));
    FilterMembers(enabled, NotIn(q.exclude));
    FilterMembers(Candidates(models, q), IsUp(checker));
    forall i | 0 <= i < |enabled|
      ensures !(NotIn(more.exclude)(enabled[i]) && IsUp(checker)(enabled[i]))
    {
      assert enabled[i] in enabled;
    }
    FilterDisjoint(enabled, NotIn(more.exclude), IsUp(checker));
  }

  // ---- round robin ---------------------------------------------------------------------------

  /** One selection in the life of a router: any policy, any filters, and whatever the
      availability probe says at that moment. */
  datatype Selection = Selection(policy: Policy, q: Query, checker: Checker)

  /** What one selection adds to the round-robin picks, and the counter after it. */
  function OnePick(models: Models, s: Selection, counter: nat): (Option<ModelConfig>, nat) {
    var (routing, n) := Select(models, s.policy, s.q, s.checker, counter);
    (if s.policy.RoundRobin? && routing.Selected? then Some(routing.model) else None, n)
  }

  function Extended(picks: seq<ModelConfig>, pick: Option<ModelConfig>): seq<ModelConfig> {
    if pick.Some? then picks + [pick.value] else picks
  }

  /** Round-robin picks of a run, in order, and the counter after it. */
  function RoundRobinRun(models: Models, selections: seq<Selection>, counter: nat): (seq<ModelConfig>, nat) {
    if selections == [] then ([], counter) else
      var (picks, n) := RoundRobinRun(models, selections[..|selections| - 1], counter);
      var (pick, n') := OnePick(models, selections[|selections| - 1], n);
      (Extended(picks, pick), n')
  }

  /** Every round-robin selection that succeeds in the run chooses among the same models. */
  ghost predicate FixedPool(models: Models, selections: seq<Selection>, pool: seq<ModelConfig>) {
    forall i :: 0 <= i < |selections| && selections[i].policy.RoundRobin?
      ==> Available(models, selections[i].q, selections[i].checker) in {pool, []}
  }

  /** Whose turn it is when the counter stands at `n`. */
  function Turn(pool: seq<ModelConfig>, n: nat): ModelConfig
    requires pool != []
  {
    pool[n % |pool|]
  }

  /** Going round and round in a list from some position. */
  function Cycle(pool: seq<ModelConfig>, start: nat, length: nat): (r: seq<ModelConfig>)
    requires pool != []
    ensures |r| == length
  {
    seq(length, i requires 0 <= i => Turn(pool, start + i))
  }

  /** A successful round-robin selection takes the model the counter points at in name order and
      moves the counter; any other selection leaves it alone. */
  lemma {:induction false} OneSelection(models: Models, s: Selection, n: nat, pool: seq<ModelConfig>)
    requires pool != []
    requires s.policy.RoundRobin? ==> Available(models, s.q, s.checker) in {pool, []}
    ensures
      var (pick, n') := OnePick(models, s, n);
      if pick.Some? then pick.value == Turn(Sort(pool, ByName()), n) && n' == n + 1 else n' == n
  {
  }

  lemma {:induction false} CycleSnoc(pool: seq<ModelConfig>, start: nat, length: nat)
    requires pool != []
    ensures Cycle(pool, start, length + 1) == Cycle(pool, start, length) + [Turn(pool, start + length)]
  {
  }

  lemma {:induction false} RoundGoesOn(pool: seq<ModelConfig>, counter: nat, picks: seq<ModelConfig>, n: nat,
          pick: Option<ModelConfig>)
    requires pool != [] && picks == Cycle(pool, counter, |picks|) && n == counter + |picks|
    requires pick.Some? ==> pick.value == Turn(pool, n)
    ensures Extended(picks, pick) == Cycle(pool, counter, |Extended(picks, pick)|)
  {
    CycleSnoc(pool, counter, |picks|);
  }

  lemma {:induction false} NamesAreOrdered()
    ensures TotalPreorder(ByName())
  {
    forall a: ModelConfig, b: ModelConfig
      ensures ByName()(a, b) || ByName()(b, a)
    {
      TextLeqTotal(a.name, b.name);
    }
    forall a: ModelConfig, b: ModelConfig, c: ModelConfig | ByName()(a, b) && ByName()(b, c)
      ensures ByName()(a, c)
    {
      TextLeqTransitive(a.name, b.name, c.name);
    }
  }

  /** Selections under other policies, failing ones, and successful ones do not disturb the
      round: the picks go through the pool in name order from where the counter stands. */
  lemma {:induction false} PicksGoRound(models: Models, selections: seq<Selection>, counter: nat,
          pool: seq<ModelConfig>)
    requires pool != [] && FixedPool(models, selections, pool)
    ensures
      var run := RoundRobinRun(models, selections, counter);
      run.1 == counter + |run.0| && run.0 == Cycle(Sort(pool, ByName()), counter, |run.0|)
    ensures
      var sorted := Sort(pool, ByName());
      && multiset(sorted) == multiset(pool)
      && forall i, j :: 0 <= i < j < |sorted| ==> TextLeq(sorted[i].name, sorted[j].name)
  {
    NamesAreOrdered();
    SortSorts(pool, ByName());
    SortKeepsElements(pool, ByName());
    if selections != [] {
      var front, last := selections[..|selections| - 1], selections[|selections| - 1];
      PicksGoRound(models, front, counter, pool);
      var (picks, n) := RoundRobinRun(models, front, counter);
      OneSelection(models, last, n, pool);
      RoundGoesOn(Sort(pool, ByName()), counter, picks, n, OnePick(models, last, n).0);
    }
  }

  /** A round-robin selection for which something is up. */
  function Succeeds(models: Models): Selection -> bool {
    (s: Selection) => s.policy == RoundRobin && Available(models, s.q, s.checker) != []
  }

  /** There are as many picks as there were such selections. */
  lemma {:induction false} PicksAreCounted(models: Models, selections: seq<Selection>, counter: nat)
    ensures |RoundRobinRun(models, selections, counter).0| == |Filter(selections, Succeeds(models))|
  {
    if selections != [] {
      var front, last := selections[..|selections| - 1], selections[|selections| - 1];
      assert selections == front + [last];
      PicksAreCounted(models, front, counter);
      FilterConcat(front, [last], Succeeds(models));
      AvailableAmongCandidates(models, last.q, last.checker);
    }
  }

  lemma {:induction false} AvailableAmongCandidates(models: Models, q: Query, checker: Checker)
    ensures Candidates(models, q) == [] ==> Available(models, q, checker) == []
  {
  }

  /** One full round is a rotation of the pool. */
  lemma {:induction false} RoundIsRotation(pool: seq<ModelConfig>, start: nat)
    requires pool != []
    ensures multiset(Cycle(pool, start, |pool|)) == multiset(pool)
  {
    var n := |pool|;
    var r := start % n;
    forall i | 0 <= i < n
      ensures Cycle(pool, start, n)[i] == (pool[r..] + pool[..r])[i]
    {
      Wrap(start, i, n);
    }
    assert Cycle(pool, start, n) == pool[r..] + pool[..r];
    assert pool == pool[..r] + pool[r..];
  }

  lemma {:induction false} Wrap(start: nat, i: nat, n: nat)
    requires i < n
    ensures (start + i) % n == if start % n + i < n then start % n + i else start % n + i - n
  {
    var q, r := start / n, start % n;
    assert start == q * n + r;
    if r + i < n {
      ModIs(start + i, n, q, r + i);
    } else {
      assert start + i == (q + 1) * n + (r + i - n);
      ModIs(start + i, n, q + 1, r + i - n);
    }
  }

  lemma {:induction false} ModIs(x: nat, n: nat, q: nat, r: nat)
    requires r < n && x == q * n + r
    ensures x % n == r
  {
    var q', r' := x / n, x % n;
    assert x == q' * n + r';
    if q' < q {
      Multiples(q' + 1, q, n);
    } else if q < q' {
      Multiples(q + 1, q', n);
    }
  }

  lemma {:induction false} Multiples(a: nat, b: nat, n: nat)
    requires a <= b && a >= 1
    ensures a * n <= b * n && a * n == (a - 1) * n + n
  {
  }

  /** `k * n`, one round at a time. */
  function Rounds(k: nat, n: nat): nat {
    if k == 0 then 0 else n + Rounds(k - 1, n)
  }

  lemma {:induction false} RoundsIsProduct(k: nat, n: nat)
    ensures Rounds(k, n) == k * n
  {
    if k > 0 {
      RoundsIsProduct(k - 1, n);
      assert k * n == (k - 1) * n + n;
    }
  }

  lemma {:induction false} CycleSplits(pool: seq<ModelConfig>, start: nat, a: nat, b: nat)
    requires pool != []
    ensures Cycle(pool, start, a + b) == Cycle(pool, start, a) + Cycle(pool, start + a, b)
  {
  }

  lemma {:induction false} RoundsCount(pool: seq<ModelConfig>, start: nat, k: nat, m: ModelConfig)
    requires pool != []
    ensures multiset(Cycle(pool, start, Rounds(k, |pool|)))[m] == Rounds(k, multiset(pool)[m])
    decreases k
  {
    if k > 0 {
      var rest := Rounds(k - 1, |pool|);
      CycleSplits(pool, start, |pool|, rest);
      RoundIsRotation(pool, start);
      RoundsCount(pool, start + |pool|, k - 1, m);
    }
  }

  lemma {:induction false} SliceOfCycle(pool: seq<ModelConfig>, start: nat, length: nat, from: nat, span: nat)
    requires pool != [] && from + span <= length
    ensures Cycle(pool, start, length)[from..from + span] == Cycle(pool, start + from, span)
  {
  }

  lemma {:induction false} DistinctOccurOnce(pool: seq<ModelConfig>, m: ModelConfig)
    requires DistinctNames(pool) && m in pool
    ensures multiset(pool)[m] == 1
  {
    assert pool == [pool[0]] + pool[1..];
    assert forall i :: 0 <= i < |pool[1..]| ==> pool[1..][i] == pool[i + 1];
    if pool[0] == m {
      assert m !in pool[1..];
    } else {
      DistinctOccurOnce(pool[1..], m);
    }
  }

  /** Fairness: with a fixed pool, any k rounds' worth of consecutive round-robin picks choose
      each model of the pool exactly k times, whatever else the router is asked in between. */
  lemma {:induction false} RoundRobinIsFair(models: Models, selections: seq<Selection>, counter: nat,
          pool: seq<ModelConfig>, from: nat, k: nat, m: ModelConfig)
    requires pool != [] && DistinctNames(pool) && m in pool
    requires FixedPool(models, selections, pool)
    requires from + k * |pool| <= |RoundRobinRun(models, selections, counter).0|
    ensures multiset(RoundRobinRun(models, selections, counter).0[from..from + k * |pool|])[m] == k
  {
    var sorted := Sort(pool, ByName());
    RoundsIsProduct(k, |pool|);
    RoundsIsProduct(k, 1);
    PicksGoRound(models, selections, counter, pool);
    SortKeepsElements(pool, ByName());
    DistinctOccurOnce(pool, m);
    FairSlice(pool, sorted, counter, |RoundRobinRun(models, selections, counter).0|, from, k, m);
  }

  lemma {:induction false} FairSlice(pool: seq<ModelConfig>, sorted: seq<ModelConfig>, counter: nat, length: nat,
          from: nat, k: nat, m: ModelConfig)
    requires sorted != [] && multiset(sorted)[m] == 1 && |sorted| == |pool|
    requires from + Rounds(k, |pool|) <= length
    ensures multiset(Cycle(sorted, counter, length)[from..from + Rounds(k, |pool|)])[m] == Rounds(k, 1)
  {
    SliceOfCycle(sorted, counter, length, from, Rounds(k, |pool|));
    RoundsCount(sorted, counter + from, k, m);
  }
}
