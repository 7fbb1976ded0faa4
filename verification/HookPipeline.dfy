/**
 The hook pipeline (agentcook-core/src/agentcook_core/hook_runtime.py): hooks around a core
 callable in onion order, with cancellation, exceptions and fail-fast.
 */
module HookPipeline {
  import opened Wrappers
  import opened Seqs
  import opened OrderedDict

  datatype HookEvent = AgentRun | ToolInvoke | ModelCall | ConnectorOpen | PluginActivate | MemoryWrite | Custom

  datatype Hook = Hook(name: string, id: nat)

  // ---- registry ------------------------------------------------------------------------------

  type HookLists = Dict<HookEvent, seq<Hook>>

  function Total(lists: HookLists): nat {
    if lists == [] then 0 else |lists[0].1| + Total(lists[1..])
  }

  function NotNamed(name: string): Hook -> bool {
    (h: Hook) => h.name != name
  }

  function WithoutName(lists: HookLists, name: string): HookLists {
    Map(lists, (entry: (HookEvent, seq<Hook>)) => (entry.0, Filter(entry.1, NotNamed(name))))
  }

  function ListFor(lists: HookLists, event: HookEvent): seq<Hook> {
    match Lookup(lists, event) case Some(hooks) => hooks case None => []
  }

  lemma {:induction false} TotalSplit(lists: HookLists, i: nat)
    requires i <= |lists|
    ensures Total(lists) == Total(lists[..i]) + Total(lists[i..])
  {
    if i == 0 {
      assert lists[0..] == lists;
    } else {
      TotalSplit(lists[1..], i - 1);
      assert lists[..i][1..] == lists[1..][..i - 1];
      assert lists[1..][i - 1..] == lists[i..];
    }
  }

  lemma {:induction false} TotalSnoc(lists: HookLists, entry: (HookEvent, seq<Hook>))
    ensures Total(lists + [entry]) == Total(lists) + |entry.1|
  {
    TotalSplit(lists + [entry], |lists|);
    assert (lists + [entry])[..|lists|] == lists && (lists + [entry])[|lists|..] == [entry];
  }

  lemma {:induction false} WithoutNameAt(lists: HookLists, name: string, event: HookEvent)
    ensures ListFor(WithoutName(lists, name), event) == Filter(ListFor(lists, event), NotNamed(name))
  {
    if lists != [] {
      assert WithoutName(lists, name)[1..] == WithoutName(lists[1..], name);
      WithoutNameAt(lists[1..], name, event);
    }
  }

  /** One `register` call. */
  datatype Registration = Registration(event: HookEvent, hook: Hook, isGlobal: bool)

  function IsGlobal(): Registration -> bool {
    (r: Registration) => r.isGlobal
  }

  function IsOwn(event: HookEvent): Registration -> bool {
    (r: Registration) => !r.isGlobal && r.event == event
  }

  function FiresOn(event: HookEvent): Registration -> bool {
    (r: Registration) => r.isGlobal || r.event == event
  }

  function NotOf(name: string): Registration -> bool {
    (r: Registration) => r.hook.name != name
  }

  function HookOf(): Registration -> Hook {
    (r: Registration) => r.hook
  }

  /** What an event dispatches to: the registrations of global hooks, then its own. */
  function Dispatched(log: seq<Registration>, event: HookEvent): seq<Registration> {
    Filter(log, IsGlobal()) + Filter(log, IsOwn(event))
  }

  /** What the docstring says: everything that fires on the event, in registration order. */
  function InOrder(log: seq<Registration>, event: HookEvent): seq<Registration> {
    Filter(log, FiresOn(event))
  }

  lemma {:induction false} AppendedHook(log: seq<Registration>, r: Registration, p: Registration -> bool)
    ensures Map(Filter(log + [r], p), HookOf()) == Map(Filter(log, p), HookOf()) + if p(r) then [r.hook] else []
  {
    FilterConcat(log, [r], p);
    assert Filter([r], p) == if p(r) then [r] else [];
    MapConcat(Filter(log, p), Filter([r], p), HookOf());
  }

  /** Removing a name from the log and from a list of hooks is the same. */
  lemma {:induction false} RemovedHooks(log: seq<Registration>, name: string, p: Registration -> bool)
    ensures Map(Filter(Filter(log, NotOf(name)), p), HookOf()) == Filter(Map(Filter(log, p), HookOf()), NotNamed(name))
  {
    if log != [] {
      var r, rest := log[0], log[1..];
      RemovedHooks(rest, name, p);
      var left := Filter(rest, NotOf(name));
      assert log == [r] + rest;
      FilterConcat([r], rest, NotOf(name));
      FilterConcat([r], rest, p);
      FilterConcat(Filter([r], NotOf(name)), left, p);
      MapConcat(Filter(Filter([r], NotOf(name)), p), Filter(left, p), HookOf());
      MapConcat(Filter([r], p), Filter(rest, p), HookOf());
      FilterConcat(Map(Filter([r], p), HookOf()), Map(Filter(rest, p), HookOf()), NotNamed(name));
      RemovedHook(r, name, p);
    }
  }

  lemma {:induction false} RemovedHook(r: Registration, name: string, p: Registration -> bool)
    ensures Map(Filter(Filter([r], NotOf(name)), p), HookOf()) == Filter(Map(Filter([r], p), HookOf()), NotNamed(name))
  {
    assert Filter([r], NotOf(name)) == if r.hook.name != name then [r] else [];
    assert Filter([r], p) == if p(r) then [r] else [];
    assert Map([r], HookOf()) == [r.hook];
    assert Filter([r.hook], NotNamed(name)) == if r.hook.name != name then [r.hook] else [];
  }

  class HookRegistry {
    var hooks: HookLists
    var globalHooks: seq<Hook>

    /** The `register` calls that still count, oldest first. */
    ghost var log: seq<Registration>

    ghost predicate Valid()
      reads this
    {
      && globalHooks == Map(Filter(log, IsGlobal()), HookOf())
      && forall e :: ListFor(hooks, e) == Map(Filter(log, IsOwn(e)), HookOf())
    }

    constructor ()
      ensures Valid() && log == []
    {
      hooks, globalHooks, log := [], [], [];
    }

    /** A hook joins the list of its event, or the global list. */
    method Register(event: HookEvent, hook: Hook, isGlobal: bool)
      requires Valid()
      modifies this
      ensures Valid() && log == old(log) + [Registration(event, hook, isGlobal)]
      ensures globalHooks == old(globalHooks) + if isGlobal then [hook] else []
      ensures forall e :: ListFor(hooks, e) == ListFor(old(hooks), e) + if !isGlobal && e == event then [hook] else []
    {
      ghost var r := Registration(event, hook, isGlobal);
      if isGlobal {
        globalHooks := globalHooks + [hook];
      } else {
        var list := ListFor(hooks, event);
        forall e
          ensures ListFor(Write(hooks, event, list + [hook]), e)
               == ListFor(hooks, e) + if e == event then [hook] else []
        {
          LookupAfterWrite(hooks, event, list + [hook], e);
        }
        hooks := Write(hooks, event, list + [hook]);
      }
      AppendedHook(log, r, IsGlobal());
      forall e
        ensures Map(Filter(log + [r], IsOwn(e)), HookOf())
             == Map(Filter(log, IsOwn(e)), HookOf()) + if IsOwn(e)(r) then [hook] else []
      {
        AppendedHook(log, r, IsOwn(e));
      }
      log := log + [r];
    }

    /** Global hooks first, then the event's own, each in registration order. */
    method GetHooks(event: HookEvent) returns (r: seq<Hook>)
      requires Valid()
      ensures r == Map(Dispatched(log, event), HookOf())
    {
      r := globalHooks + ListFor(hooks, event);
      MapConcat(Filter(log, IsGlobal()), Filter(log, IsOwn(event)), HookOf());
    }

    /** Removes a name everywhere and reports how many hooks that were. */
    method Unregister(name: string) returns (removed: int)
      requires Valid()
      modifies this
      ensures Valid() && log == Filter(old(log), NotOf(name))
      ensures globalHooks == Filter(old(globalHooks), NotNamed(name))
      ensures forall e :: ListFor(hooks, e) == Filter(ListFor(old(hooks), e), NotNamed(name))
      ensures removed == old(Total(hooks) + |globalHooks|) - (Total(hooks) + |globalHooks|)
    {
      var rest;
      rest, removed := Without(name);
      var left := Filter(globalHooks, NotNamed(name));
      removed := removed + |globalHooks| - |left|;
      RemovedHooks(log, name, IsGlobal());
      forall e
        ensures ListFor(rest, e) == Map(Filter(Filter(log, NotOf(name)), IsOwn(e)), HookOf())
      {
        WithoutNameAt(hooks, name, e);
        RemovedHooks(log, name, IsOwn(e));
      }
      forall e
        ensures ListFor(rest, e) == Filter(ListFor(hooks, e), NotNamed(name))
      {
        WithoutNameAt(hooks, name, e);
      }
      hooks, globalHooks := rest, left;
      log := Filter(log, NotOf(name));
    }

    /** The loop over the lists of the events. */
    method Without(name: string) returns (rest: HookLists, removed: int)
      ensures rest == WithoutName(hooks, name) && removed == Total(hooks) - Total(rest)
    {
      removed, rest := 0, [];
      for i := 0 to |hooks|
        invariant rest == WithoutName(hooks[..i], name)
        invariant removed == Total(hooks[..i]) - Total(rest)
      {
        var (event, list) := hooks[i];
        var left := Filter(list, NotNamed(name));
        TotalSnoc(hooks[..i], hooks[i]);
        TotalSnoc(rest, (event, left));
        assert hooks[..i + 1] == hooks[..i] + [hooks[i]];
        removed := removed + |list| - |left|;
        rest := rest + [(event, left)];
      }
      assert hooks[..|hooks|] == hooks;
    }
  }

  /** No global hook is registered after one of the event's own. */
  ghost predicate NoLateGlobal(log: seq<Registration>, event: HookEvent) {
    forall i, j :: 0 <= i < j < |log| && IsOwn(event)(log[i]) ==> !log[j].isGlobal
  }

  lemma {:induction false} LateGlobalBehindOwn(r: Registration, rest: seq<Registration>, event: HookEvent)
    requires IsOwn(event)(r)
    ensures NoLateGlobal([r] + rest, event) <==> Filter(rest, IsGlobal()) == []
  {
    var log := [r] + rest;
    if Filter(rest, IsGlobal()) == [] {
      FilterMembers(rest, IsGlobal());
      forall i, j | 0 <= i < j < |log| && IsOwn(event)(log[i])
        ensures !log[j].isGlobal
      {
        assert rest[j - 1] in rest;
      }
    } else {
      NotFilteredOut(rest, IsGlobal());
      var j :| 0 <= j < |rest| && IsGlobal()(rest[j]);
      assert IsOwn(event)(log[0]) && log[j + 1].isGlobal;
    }
  }

  lemma {:induction false} LateGlobalBehindOther(r: Registration, rest: seq<Registration>, event: HookEvent)
    requires !IsOwn(event)(r)
    ensures NoLateGlobal([r] + rest, event) <==> NoLateGlobal(rest, event)
  {
    var log := [r] + rest;
    assert forall i :: 0 <= i < |rest| ==> rest[i] == log[i + 1];
    if NoLateGlobal(rest, event) {
      forall i, j | 0 <= i < j < |log| && IsOwn(event)(log[i])
        ensures !log[j].isGlobal
      {
        assert log[i] == rest[i - 1] && log[j] == rest[j - 1];
      }
    } else {
      var i, j :| 0 <= i < j < |rest| && IsOwn(event)(rest[i]) && rest[j].isGlobal;
      assert IsOwn(event)(log[i + 1]) && log[j + 1].isGlobal;
    }
  }

  lemma {:induction false} NotFilteredOut(rest: seq<Registration>, p: Registration -> bool)
    requires Filter(rest, p) != []
    ensures exists j :: 0 <= j < |rest| && p(rest[j])
  {
    if !p(rest[0]) {
      NotFilteredOut(rest[1..], p);
      var j :| 0 <= j < |rest[1..]| && p(rest[1..][j]);
      assert p(rest[j + 1]);
    }
  }

  /** The registrations that fire on the event are dispatched in the documented order exactly when no
      global one came after one of the event's own. */
  lemma {:induction false} DispatchedInOrderIff(log: seq<Registration>, event: HookEvent)
    ensures Dispatched(log, event) == InOrder(log, event) <==> NoLateGlobal(log, event)
  {
    if log != [] {
      var r, rest := log[0], log[1..];
      assert log == [r] + rest;
      DispatchedInOrderIff(rest, event);
      if IsOwn(event)(r) {
        LateGlobalBehindOwn(r, rest, event);
        OwnFirst(r, rest, event);
      } else {
        LateGlobalBehindOther(r, rest, event);
        OtherFirst(r, rest, event);
      }
    }
  }

  lemma {:induction false} OtherFirst(r: Registration, rest: seq<Registration>, event: HookEvent)
    requires !IsOwn(event)(r)
    ensures Dispatched([r] + rest, event) == InOrder([r] + rest, event)
         <==> Dispatched(rest, event) == InOrder(rest, event)
  {
    var front := if r.isGlobal then [r] else [];
    assert ([r] + rest)[1..] == rest;
    JoinAssociates(front, Filter(rest, IsGlobal()), Filter(rest, IsOwn(event)));
    assert [] + Filter(rest, IsOwn(event)) == Filter(rest, IsOwn(event));
    SameRest(front, Dispatched(rest, event), InOrder(rest, event));
  }

  lemma {:induction false} SameRest<T>(front: seq<T>, a: seq<T>, b: seq<T>)
    ensures front + a == front + b <==> a == b
  {
    assert a == (front + a)[|front|..] && b == (front + b)[|front|..];
  }

  lemma {:induction false} OwnFirst(r: Registration, rest: seq<Registration>, event: HookEvent)
    requires IsOwn(event)(r)
    ensures Dispatched([r] + rest, event) == InOrder([r] + rest, event) <==> Filter(rest, IsGlobal()) == []
  {
    var globals := Filter(rest, IsGlobal());
    assert ([r] + rest)[1..] == rest;
    if globals == [] {
      OnlyOwnLeft(rest, event);
    } else {
      FilterMembers(rest, IsGlobal());
      assert globals[0] in globals;
      assert Dispatched([r] + rest, event)[0] == globals[0] && InOrder([r] + rest, event)[0] == r;
    }
  }

  lemma {:induction false} OnlyOwnLeft(rest: seq<Registration>, event: HookEvent)
    requires Filter(rest, IsGlobal()) == []
    ensures Filter(rest, FiresOn(event)) == Filter(rest, IsOwn(event))
  {
    FilterMembers(rest, IsGlobal());
    assert forall j :: 0 <= j < |rest| ==> rest[j] in rest;
    FilterAgrees(rest, FiresOn(event), IsOwn(event));
  }

  /** No hook is registered twice among those that fire on the event. */
  ghost predicate HooksDiffer(log: seq<Registration>, event: HookEvent) {
    var fires := InOrder(log, event);
    forall i, j :: 0 <= i < j < |fires| ==> fires[i].hook != fires[j].hook
  }

  /** So the hooks returned are in the documented order if no global one was registered after one of
      the event's own, and only then unless a hook was registered twice. */
  lemma {:induction false} HooksInOrderIff(log: seq<Registration>, event: HookEvent)
    ensures NoLateGlobal(log, event) ==> Map(Dispatched(log, event), HookOf()) == Map(InOrder(log, event), HookOf())
    ensures HooksDiffer(log, event) && Map(Dispatched(log, event), HookOf()) == Map(InOrder(log, event), HookOf()) ==>
              NoLateGlobal(log, event)
  {
    DispatchedInOrderIff(log, event);
    var a, b := Dispatched(log, event), InOrder(log, event);
    if HooksDiffer(log, event) && Map(a, HookOf()) == Map(b, HookOf()) {
      assert |a| == |Map(a, HookOf())| == |Map(b, HookOf())| == |b|;
      forall k | 0 <= k < |a|
        ensures a[k] == b[k]
      {
        DispatchedFires(log, event, k);
        var j :| 0 <= j < |b| && b[j] == a[k];
        assert b[j].hook == Map(a, HookOf())[k] == Map(b, HookOf())[k] == b[k].hook;
        assert j == k;
      }
      assert a == b;
    }
  }

  lemma {:induction false} DispatchedFires(log: seq<Registration>, event: HookEvent, k: nat)
    requires k < |Dispatched(log, event)|
    ensures Dispatched(log, event)[k] in InOrder(log, event)
  {
    FilterMembers(log, IsGlobal());
    FilterMembers(log, IsOwn(event));
    FilterMembers(log, FiresOn(event));
    var globals, own := Filter(log, IsGlobal()), Filter(log, IsOwn(event));
    assert Dispatched(log, event)[k] in globals + own;
  }

  /** A log where it matters: the global hook registered last is called first. */
  lemma {:induction false} LateGlobalComesFirst(event: HookEvent, own: Hook, late: Hook)
    ensures
      var log := [Registration(event, own, false), Registration(event, late, true)];
      && Map(Dispatched(log, event), HookOf()) == [late, own]
      && Map(InOrder(log, event), HookOf()) == [own, late]
  {
    var a, b := Registration(event, own, false), Registration(event, late, true);
    AppendedHook([], a, IsGlobal());
    AppendedHook([a], b, IsGlobal());
    AppendedHook([], a, IsOwn(event));
    AppendedHook([a], b, IsOwn(event));
    AppendedHook([], a, FiresOn(event));
    AppendedHook([a], b, FiresOn(event));
    assert [] + [a] == [a] && [a] + [b] == [a, b];
    MapConcat(Filter([a, b], IsGlobal()), Filter([a, b], IsOwn(event)), HookOf());
  }

  /** A hook registered twice hides the order: the registrations are dispatched the other way round,
      and the hooks returned are the same. */
  lemma {:induction false} RepeatedHookHidesTheOrder(event: HookEvent, hook: Hook)
    ensures
      var log := [Registration(event, hook, false), Registration(event, hook, true)];
      && !NoLateGlobal(log, event)
      && Map(Dispatched(log, event), HookOf()) == Map(InOrder(log, event), HookOf()) == [hook, hook]
  {
    LateGlobalComesFirst(event, hook, hook);
    var log := [Registration(event, hook, false), Registration(event, hook, true)];
    assert IsOwn(event)(log[0]) && log[1].isGlobal;
  }

  // ---- one execution -------------------------------------------------------------------------

  /** What one hook call does in this execution: it may cancel, and it may raise, even both. */
  datatype Behaviour = Behaviour(cancels: Option<string>, raises: Option<string>)

  /** A hook with what its two calls do. */
  datatype Layer = Layer(hook: Hook, pre: Behaviour, post: Behaviour)

  datatype CoreRun<O> = Returns(output: O) | Raises(error: string)

  datatype Call = Pre(i: nat) | Core | Post(i: nat)

  datatype HookResult<O> = HookResult(success: bool, output: Option<O>, error: Option<string>, hooksExecuted: nat)

  /** The pre-calls made: up to the first one that cancels or, under fail-fast, raises. */
  function PreCalls(layers: seq<Layer>, failFast: bool): (p: nat)
    ensures p <= |layers|
    ensures forall i :: 0 <= i < p - 1 ==> layers[i].pre.cancels.None? && !(failFast && layers[i].pre.raises.Some?)
    ensures p < |layers| ==> p > 0 && (layers[p - 1].pre.cancels.Some? || (failFast && layers[p - 1].pre.raises.Some?))
  {
    if layers == [] then 0
    else if layers[0].pre.cancels.Some? || (failFast && layers[0].pre.raises.Some?) then 1
    else 1 + PreCalls(layers[1..], failFast)
  }

  /** The post-calls made, counted from the last layer inwards. */
  function PostCalls(layers: seq<Layer>, failFast: bool): (q: nat)
    ensures q <= |layers|
    ensures forall i :: |layers| - q < i < |layers| ==> !(failFast && layers[i].post.raises.Some?)
    ensures q < |layers| ==> q > 0 && failFast && layers[|layers| - q].post.raises.Some?
  {
    if layers == [] then 0
    else if failFast && layers[|layers| - 1].post.raises.Some? then 1
    else 1 + PostCalls(layers[..|layers| - 1], failFast)
  }

  function PreTrace(p: nat): seq<Call> {
    seq(p, i requires 0 <= i => Pre(i))
  }

  /** The first `q` post-calls of `n` layers: the last layer first. */
  function PostTrace(n: nat, q: nat): seq<Call>
    requires q <= n
  {
    seq(q, i requires 0 <= i < q => Post(n - 1 - i))
  }

  /** How many of the first `p` pre-calls, or of the first `q` post-calls, returned. */
  function PreReturned(layers: seq<Layer>, p: nat): nat
    requires p <= |layers|
  {
    if p == 0 then 0 else PreReturned(layers, p - 1) + if layers[p - 1].pre.raises.None? then 1 else 0
  }

  function PostReturned(layers: seq<Layer>, q: nat): nat
    requires q <= |layers|
  {
    if q == 0 then 0 else PostReturned(layers, q - 1) + if layers[|layers| - q].post.raises.None? then 1 else 0
  }

  /** The context's cancellation after the first `q` post-calls, the latest reason winning. */
  function CancelledAfter(layers: seq<Layer>, before: Option<string>, q: nat): Option<string>
    requires q <= |layers|
  {
    if q == 0 then before
    else if layers[|layers| - q].post.cancels.Some? then layers[|layers| - q].post.cancels
    else CancelledAfter(layers, before, q - 1)
  }

  /** Whether a pre-call aborts the whole execution, which only fail-fast does. */
  predicate Aborts(layers: seq<Layer>, failFast: bool) {
    var p := PreCalls(layers, failFast);
    failFast && p > 0 && layers[p - 1].pre.raises.Some?
  }

  /** The cancellation that the pre-calls leave behind. */
  function PreCancelled(layers: seq<Layer>, failFast: bool): Option<string> {
    var p := PreCalls(layers, failFast);
    if p > 0 then layers[p - 1].pre.cancels else None
  }

  function FailText(phase: string, layer: Layer, error: string): string {
    phase + " failed in " + layer.hook.name + ": " + error
  }

  /** The mutable bag that every call of an execution shares. */
  class HookContext {
    var cancelled: bool
    var cancelReason: Option<string>

    constructor ()
      ensures !cancelled && cancelReason == None
    {
      cancelled, cancelReason := false, None;
    }

    predicate Holds(reason: Option<string>)
      reads this
    {
      cancelled == reason.Some? && cancelReason == reason
    }

    method Cancel(reason: string)
      modifies this
      ensures Holds(Some(reason))
    {
      cancelled, cancelReason := true, Some(reason);
    }
  }

  /** One call of a hook on the shared context; the result tells whether it raised. */
  method CallHook(context: HookContext, b: Behaviour, ghost before: Option<string>) returns (raised: Option<string>)
    requires context.Holds(before)
    modifies context
    ensures context.Holds(if b.cancels.Some? then b.cancels else before)
    ensures raised == b.raises
  {
    if b.cancels.Some? {
      context.Cancel(b.cancels.value);
    }
    return b.raises;
  }

  /** The pre-execute loop. */
  method RunPre(context: HookContext, layers: seq<Layer>, failFast: bool)
    returns (trace: seq<Call>, executed: nat, failure: Option<string>)
    requires context.Holds(None)
    modifies context
    ensures
      var p := PreCalls(layers, failFast);
      && trace == PreTrace(p)
      && executed == PreReturned(layers, p)
      && failure == (if Aborts(layers, failFast)
                     then Some(FailText("pre_execute", layers[p - 1], layers[p - 1].pre.raises.value)) else None)
      && context.Holds(PreCancelled(layers, failFast))
  {
    trace, executed, failure := [], 0, None;
    ghost var p := PreCalls(layers, failFast);
    var i := 0;
    while i < |layers|
      invariant 0 <= i <= p && trace == PreTrace(i)
      invariant executed == PreReturned(layers, i)
      invariant i < p ==> context.Holds(None)
      invariant i == p ==> context.Holds(PreCancelled(layers, failFast)) && !Aborts(layers, failFast)
      invariant i < |layers| ==> i < p
    {
      var raised := CallHook(context, layers[i].pre, None);
      trace := trace + [Pre(i)];
      if raised.None? {
        executed := executed + 1;
      } else if failFast {
        failure := Some(FailText("pre_execute", layers[i], raised.value));
        return;
      }
      i := i + 1;
      if context.cancelled {
        break;
      }
    }
  }

  /** The post-execute loop, from the last layer to the first.  `quiet` is the variant after a
      raising core under fail-fast: nothing is counted and nothing stops it. */
  method RunPost(context: HookContext, layers: seq<Layer>, failFast: bool, quiet: bool, ghost before: Option<string>)
    returns (trace: seq<Call>, executed: nat, failure: Option<string>)
    requires context.Holds(before)
    modifies context
    ensures
      var q := PostCalls(layers, failFast && !quiet);
      && trace == PostTrace(|layers|, q)
      && executed == (if quiet then 0 else PostReturned(layers, q))
      && failure == (if failFast && !quiet && q > 0 && layers[|layers| - q].post.raises.Some?
                     then Some(FailText("post_execute", layers[|layers| - q], layers[|layers| - q].post.raises.value))
                     else None)
      && context.Holds(CancelledAfter(layers, before, q))
  {
    trace, executed, failure := [], 0, None;
    ghost var all := PostCalls(layers, failFast && !quiet);
    var i := |layers|;
    while i > 0
      invariant 0 <= i <= |layers| && |layers| - i <= all
      invariant i > 0 ==> |layers| - i < all
      invariant trace == PostTrace(|layers|, |layers| - i)
      invariant executed == if quiet then 0 else PostReturned(layers, |layers| - i)
      invariant context.Holds(CancelledAfter(layers, before, |layers| - i))
      invariant failFast && !quiet ==> forall k :: i <= k < |layers| ==> layers[k].post.raises.None?
    {
      i := i - 1;
      var raised := CallHook(context, layers[i].post, CancelledAfter(layers, before, |layers| - i - 1));
      trace := trace + [Post(i)];
      if !quiet {
        if raised.None? {
          executed := executed + 1;
        } else if failFast {
          failure := Some(FailText("post_execute", layers[i], raised.value));
          return;
        }
      }
    }
  }

  /** The whole execution: pre-calls, core, post-calls. */
  method Execute<O>(layers: seq<Layer>, core: CoreRun<O>, failFast: bool) returns (r: HookResult<O>, trace: seq<Call>)
    ensures Follows(layers, core, failFast, r, trace)
  {
    var context := new HookContext();
    var executed, failure;
    trace, executed, failure := RunPre(context, layers, failFast);
    if failure.Some? {
      return HookResult(false, None, failure, executed), trace;
    }
    var output, error: Option<string> := None, None;
    ghost var reason := PreCancelled(layers, failFast);
    if !context.cancelled {
      trace := trace + [Core];
      match core {
        case Returns(value) => output := Some(value);
        case Raises(text) =>
          error := Some(text);
          if failFast {
            var after, _, _ := RunPost(context, layers, failFast, true, reason);
            return HookResult(false, None, error, executed), trace + after;
          }
      }
    }
    var after, returned, postFailure := RunPost(context, layers, failFast, false, reason);
    trace := trace + after;
    executed := executed + returned;
    if postFailure.Some? {
      return HookResult(false, None, postFailure, executed), trace;
    }
    assert PreTrace(PreCalls(layers, failFast)) + [] == PreTrace(PreCalls(layers, failFast));
    r := HookResult(error.None? && !context.cancelled, output,
                    if error.Some? && error.value != "" then error else context.cancelReason, executed);
  }

  /** What the pre-call and the post-call of a hook do at its place in the dispatch order. */
  type Acts = (nat, Hook) -> (Behaviour, Behaviour)

  function LayersOf(hooks: seq<Hook>, act: Acts): (layers: seq<Layer>)
    ensures |layers| == |hooks|
    ensures forall i :: 0 <= i < |hooks| ==>
              layers[i].hook == hooks[i] && (layers[i].pre, layers[i].post) == act(i, hooks[i])
  {
    seq(|hooks|, i requires 0 <= i < |hooks| => Layer(hooks[i], act(i, hooks[i]).0, act(i, hooks[i]).1))
  }

  class Pipeline {
    const registry: HookRegistry
    const failFast: bool

    constructor (registry: HookRegistry, failFast: bool)
      ensures this.registry == registry && this.failFast == failFast
    {
      this.registry, this.failFast := registry, failFast;
    }

    /** `execute`: the hooks registered for the event around the core. */
    method ExecuteEvent<O>(event: HookEvent, act: Acts, core: CoreRun<O>) returns (r: HookResult<O>, trace: seq<Call>)
      requires registry.Valid()
      ensures Follows(LayersOf(Map(Dispatched(registry.log, event), HookOf()), act), core, failFast, r, trace)
    {
      var hooks := registry.GetHooks(event);
      r, trace := Execute(LayersOf(hooks, act), core, failFast);
    }
  }

  /** The core runs unless a pre-call cancelled or aborted. */
  predicate CoreRuns(layers: seq<Layer>, failFast: bool) {
    !Aborts(layers, failFast) && PreCancelled(layers, failFast).None?
  }

  /** What an execution returns and which calls it makes, in closed form. */
  ghost predicate Follows<O>(layers: seq<Layer>, core: CoreRun<O>, failFast: bool, r: HookResult<O>, trace: seq<Call>) {
    var n, p := |layers|, PreCalls(layers, failFast);
    var runs := CoreRuns(layers, failFast);
    var inner := PreTrace(p) + if runs then [Core] else [];
    if Aborts(layers, failFast) then
      // a raising pre-hook under fail-fast: no core, no post-hooks
      && trace == PreTrace(p)
      && r == HookResult(false, None, Some(FailText("pre_execute", layers[p - 1], layers[p - 1].pre.raises.value)),
                         PreReturned(layers, p))
    else if failFast && runs && core.Raises? then
      // a raising core under fail-fast: all post-hooks run, uncounted
      && trace == inner + PostTrace(n, PostCalls(layers, false))
      && r == HookResult(false, None, Some(core.error), PreReturned(layers, p))
    else
      var q := PostCalls(layers, failFast);
      var reason := CancelledAfter(layers, PreCancelled(layers, failFast), q);
      && trace == inner + PostTrace(n, q)
      && r.hooksExecuted == PreReturned(layers, p) + PostReturned(layers, q)
      && if failFast && q > 0 && layers[n - q].post.raises.Some? then
           !r.success && r.output == None
           && r.error == Some(FailText("post_execute", layers[n - q], layers[n - q].post.raises.value))
         else
           && (r.success <==> !(runs && core.Raises?) && reason.None?)
           && r.output == (if runs && core.Returns? then Some(core.output) else None)
           && r.error == (if runs && core.Raises? && core.error != "" then Some(core.error) else reason)
  }

  // ---- what follows ----------------------------------------------------------------------------

  lemma {:induction false} CancelledIff(layers: seq<Layer>, before: Option<string>, q: nat)
    requires q <= |layers|
    ensures CancelledAfter(layers, before, q).None?
       <==> before.None? && forall i :: |layers| - q <= i < |layers| ==> layers[i].post.cancels.None?
  {
    if q > 0 {
      CancelledIff(layers, before, q - 1);
    }
  }

  /** The calls of a trace that returned. */
  function Returned(layers: seq<Layer>): Call -> bool {
    (c: Call) =>
      match c
      case Pre(i) => i < |layers| && layers[i].pre.raises == None
      case Core => false
      case Post(i) => i < |layers| && layers[i].post.raises == None
  }

  lemma {:induction false} PreReturnedIs(layers: seq<Layer>, p: nat)
    requires p <= |layers|
    ensures |Filter(PreTrace(p), Returned(layers))| == PreReturned(layers, p)
  {
    if p > 0 {
      PreReturnedIs(layers, p - 1);
      assert PreTrace(p) == PreTrace(p - 1) + [Pre(p - 1)];
      FilterConcat(PreTrace(p - 1), [Pre(p - 1)], Returned(layers));
    }
  }

  lemma {:induction false} PostReturnedIs(layers: seq<Layer>, q: nat)
    requires q <= |layers|
    ensures |Filter(PostTrace(|layers|, q), Returned(layers))| == PostReturned(layers, q)
  {
    if q > 0 {
      PostReturnedIs(layers, q - 1);
      assert PostTrace(|layers|, q) == PostTrace(|layers|, q - 1) + [Post(|layers| - q)];
      FilterConcat(PostTrace(|layers|, q - 1), [Post(|layers| - q)], Returned(layers));
    }
  }

  /** The reported number is that of the hook calls in the trace that returned, except that after a
      raising core under fail-fast the post-calls are not counted. */
  lemma {:induction false} ExecutedIsReturned<O>(layers: seq<Layer>, core: CoreRun<O>, failFast: bool, r: HookResult<O>,
          trace: seq<Call>)
    requires Follows(layers, core, failFast, r, trace)
    ensures
      var counted := if failFast && core.Raises? && Core in trace then Filter(trace, (c: Call) => c.Pre?) else trace;
      r.hooksExecuted == |Filter(counted, Returned(layers))|
  {
    var n, p := |layers|, PreCalls(layers, failFast);
    var core' := if CoreRuns(layers, failFast) then [Core] else [];
    var pre := PreTrace(p);
    PreReturnedIs(layers, p);
    FilterConcat(pre, core', Returned(layers));
    assert Filter(core', Returned(layers)) == [];
    assert Filter(pre, Returned(layers)) + [] == Filter(pre, Returned(layers));
    if Aborts(layers, failFast) {
      assert Core !in pre;
    } else if failFast && CoreRuns(layers, failFast) && core.Raises? {
      QuietTrace(pre, PostTrace(n, PostCalls(layers, false)));
      assert trace[|pre|] == Core;
    } else {
      var q := PostCalls(layers, failFast);
      PostReturnedIs(layers, q);
      FilterConcat(pre + core', PostTrace(n, q), Returned(layers));
      assert core.Raises? && failFast ==> Core !in pre + core' + PostTrace(n, q);
    }
  }

  lemma {:induction false} QuietTrace(pre: seq<Call>, post: seq<Call>)
    requires forall i :: 0 <= i < |pre| ==> pre[i].Pre?
    requires forall i :: 0 <= i < |post| ==> !post[i].Pre?
    ensures Filter(pre + [Core] + post, (c: Call) => c.Pre?) == pre
  {
    var isPre := (c: Call) => c.Pre?;
    FilterConcat(pre + [Core], post, isPre);
    FilterConcat(pre, [Core], isPre);
    FilterAll(pre, isPre);
    FilterNone(post, isPre);
    assert Filter([Core], isPre) == [];
    assert pre + [] + [] == pre;
  }

  /** The reason with which a call cancels, if it does. */
  function CancelOf(layers: seq<Layer>, c: Call): Option<string> {
    match c
    case Pre(i) => if i < |layers| then layers[i].pre.cancels else None
    case Core => None
    case Post(i) => if i < |layers| then layers[i].post.cancels else None
  }

  /** The reason of the last call that cancels, or None if none does. */
  ghost predicate IsLatestReason(layers: seq<Layer>, trace: seq<Call>, reason: Option<string>) {
    if reason.None? then forall k :: 0 <= k < |trace| ==> CancelOf(layers, trace[k]) == None
    else
      exists k :: 0 <= k < |trace| && CancelOf(layers, trace[k]) == reason
        && forall j :: k < j < |trace| ==> CancelOf(layers, trace[j]) == None
  }

  lemma {:induction false} LatestReasonSnoc(layers: seq<Layer>, trace: seq<Call>, c: Call, reason: Option<string>)
    requires IsLatestReason(layers, trace, reason)
    ensures IsLatestReason(layers, trace + [c], if CancelOf(layers, c).Some? then CancelOf(layers, c) else reason)
  {
    var all := trace + [c];
    assert all[|trace|] == c;
    if CancelOf(layers, c).None? && reason.Some? {
      var k :| 0 <= k < |trace| && CancelOf(layers, trace[k]) == reason
        && forall j :: k < j < |trace| ==> CancelOf(layers, trace[j]) == None;
      assert CancelOf(layers, all[k]) == reason;
    }
  }

  lemma {:induction false} PreReasonIsLatest(layers: seq<Layer>, failFast: bool)
    ensures IsLatestReason(layers, PreTrace(PreCalls(layers, failFast)), PreCancelled(layers, failFast))
  {
    var p := PreCalls(layers, failFast);
    if p > 0 {
      assert IsLatestReason(layers, PreTrace(p - 1), None);
      LatestReasonSnoc(layers, PreTrace(p - 1), Pre(p - 1), None);
      assert PreTrace(p) == PreTrace(p - 1) + [Pre(p - 1)];
    }
  }

  lemma {:induction false} ReasonIsLatest(layers: seq<Layer>, inner: seq<Call>, before: Option<string>, q: nat)
    requires q <= |layers| && IsLatestReason(layers, inner, before)
    ensures IsLatestReason(layers, inner + PostTrace(|layers|, q), CancelledAfter(layers, before, q))
  {
    if q == 0 {
      assert inner + PostTrace(|layers|, 0) == inner;
    } else {
      ReasonIsLatest(layers, inner, before, q - 1);
      LatestReasonSnoc(layers, inner + PostTrace(|layers|, q - 1), Post(|layers| - q),
                       CancelledAfter(layers, before, q - 1));
      assert inner + PostTrace(|layers|, q)
          == inner + PostTrace(|layers|, q - 1) + [Post(|layers| - q)];
    }
  }

  /** Whether the last call of a trace is one that raises, and then with what message. */
  function LastFailure(layers: seq<Layer>, trace: seq<Call>): Option<string> {
    if trace == [] then None else
      match trace[|trace| - 1]
      case Pre(i) =>
        if i < |layers| && layers[i].pre.raises.Some? then
          Some("pre_execute failed in " + layers[i].hook.name + ": " + layers[i].pre.raises.value)
        else None
      case Post(i) =>
        if i < |layers| && layers[i].post.raises.Some? then
          Some("post_execute failed in " + layers[i].hook.name + ": " + layers[i].post.raises.value)
        else None
      case Core => None
  }

  /** The calls of an execution that no pre-hook aborts. */
  lemma {:induction false} FinishedTrace<O>(layers: seq<Layer>, core: CoreRun<O>, failFast: bool, r: HookResult<O>,
          trace: seq<Call>) returns (q: nat)
    requires Follows(layers, core, failFast, r, trace) && !Aborts(layers, failFast)
    ensures q == PostCalls(layers, failFast && !(CoreRuns(layers, failFast) && core.Raises?))
    ensures Core in trace <==> CoreRuns(layers, failFast)
    ensures if q > 0 then trace != [] && trace[|trace| - 1] == Post(|layers| - q) else layers == []
    ensures layers == [] ==> trace == [] || trace == [Core]
    ensures IsLatestReason(layers, trace, CancelledAfter(layers, PreCancelled(layers, failFast), q))
  {
    var n, p := |layers|, PreCalls(layers, failFast);
    var pre, core' := PreTrace(p), if CoreRuns(layers, failFast) then [Core] else [];
    q := PostCalls(layers, failFast && !(CoreRuns(layers, failFast) && core.Raises?));
    assert trace == pre + core' + PostTrace(n, q);
    assert Core !in pre && Core !in PostTrace(n, q);
    PreReasonIsLatest(layers, failFast);
    if CoreRuns(layers, failFast) {
      LatestReasonSnoc(layers, pre, Core, None);
    } else {
      assert pre + core' == pre;
    }
    ReasonIsLatest(layers, pre + core', PreCancelled(layers, failFast), q);
  }

  /** What the result tells of an execution with these calls: under fail-fast a raising core is a
      failure with its error, and so is a hook call that raised, with its name; otherwise the output
      is that of the core if it returned, the error that of the core if it raised with one, or else
      the latest reason for which something cancelled, and a success is a core that did not raise
      with nothing cancelled. */
  lemma {:induction false} ResultTells<O>(layers: seq<Layer>, core: CoreRun<O>, failFast: bool, r: HookResult<O>,
          trace: seq<Call>)
    requires Follows(layers, core, failFast, r, trace)
    ensures
      if failFast && Core in trace && core.Raises? then !r.success && r.output == None && r.error == Some(core.error)
      else if failFast && LastFailure(layers, trace).Some? then
        !r.success && r.output == None && r.error == LastFailure(layers, trace)
      else
        var raised := Core in trace && core.Raises?;
        && r.output == (if Core in trace && core.Returns? then Some(core.output) else None)
        && (raised && core.error != "" ==> r.error == Some(core.error))
        && (!(raised && core.error != "") ==> IsLatestReason(layers, trace, r.error))
        && (r.success <==> !raised && forall c :: c in trace ==> CancelOf(layers, c) == None)
  {
    assert "pre_execute" + " failed in " == "pre_execute failed in ";
    assert "post_execute" + " failed in " == "post_execute failed in ";
    if Aborts(layers, failFast) {
      var p := PreCalls(layers, failFast);
      assert trace[|trace| - 1] == Pre(p - 1);
      assert Core !in trace;
    } else {
      var q := FinishedTrace(layers, core, failFast, r, trace);
    }
  }

  /** Without fail-fast the trace is an onion for every mix of outcomes: the pre-hooks in order up
      to the first cancellation, the core exactly if nothing was cancelled before it, and then
      every post-hook once, in reverse; what counts as executed are the calls that returned; and
      the result is a success exactly when the core returned and nothing ever cancelled. */
  lemma {:induction false} OnionTrace<O>(layers: seq<Layer>, core: CoreRun<O>, r: HookResult<O>, trace: seq<Call>)
    requires Follows(layers, core, false, r, trace)
    ensures
      var n, p := |layers|, PreCalls(layers, false);
      var cancelled := exists i :: 0 <= i < n && layers[i].pre.cancels.Some?;
      && trace == PreTrace(p) + (if cancelled then [] else [Core]) + PostTrace(n, n)
      && (p < n ==> cancelled)
      && (cancelled ==> p > 0 && layers[p - 1].pre.cancels.Some?)
      && r.hooksExecuted == |Filter(trace, Returned(layers))|
      && (r.success <==> !cancelled && core.Returns? && forall i :: 0 <= i < n ==> layers[i].post.cancels.None?)
      && (r.output.Some? <==> !cancelled && core.Returns?)
  {
    CancelledIff(layers, PreCancelled(layers, false), |layers|);
    ExecutedIsReturned(layers, core, false, r, trace);
    if i :| 0 <= i < |layers| && layers[i].pre.cancels.Some? {
      assert i >= PreCalls(layers, false) - 1;
    }
  }

  /** The calls of an onion nest: of two hooks that were both entered, the one entered later is
      left earlier, and the core lies between. */
  lemma {:induction false} CallsNest<O>(layers: seq<Layer>, core: CoreRun<O>, r: HookResult<O>, trace: seq<Call>,
          i: nat, j: nat)
    requires Follows(layers, core, false, r, trace) && i < j < PreCalls(layers, false)
    ensures
      var p, n := PreCalls(layers, false), |layers|;
      var middle := |trace| - n;
      && p <= middle <= p + 1
      && trace[i] == Pre(i) && trace[j] == Pre(j)
      && (CoreRuns(layers, false) ==> trace[p] == Core)
      && trace[middle + n - 1 - j] == Post(j) && trace[middle + n - 1 - i] == Post(i)
      && i < j < middle <= middle + n - 1 - j < middle + n - 1 - i
  {
    OnionTrace(layers, core, r, trace);
  }

  /** Every post-hook runs exactly once, also those whose pre-hook a cancellation skipped. */
  lemma {:induction false} EachPostOnce<O>(layers: seq<Layer>, core: CoreRun<O>, r: HookResult<O>, trace: seq<Call>,
          i: nat)
    requires Follows(layers, core, false, r, trace) && i < |layers|
    ensures |trace| > i && forall k :: 0 <= k < |trace| ==> (trace[k] == Post(i) <==> k == |trace| - 1 - i)
  {
    var n, p := |layers|, PreCalls(layers, false);
    var inner := PreTrace(p) + if CoreRuns(layers, false) then [Core] else [];
    assert PostCalls(layers, false) == n;
    assert trace == inner + PostTrace(n, n);
    forall k | 0 <= k < |trace|
      ensures trace[k] == Post(i) <==> k == |trace| - 1 - i
    {
      if k < |inner| {
        assert trace[k] == inner[k];
      } else {
        assert trace[k] == PostTrace(n, n)[k - |inner|];
      }
    }
  }

  /** Under fail-fast a raising pre-hook keeps the core and every post-hook from running, while a
      raising core still lets all post-hooks run. */
  lemma {:induction false} FailFast<O>(layers: seq<Layer>, core: CoreRun<O>, r: HookResult<O>, trace: seq<Call>)
    requires Follows(layers, core, true, r, trace)
    ensures Aborts(layers, true) ==>
              !r.success && forall k :: 0 <= k < |trace| ==> trace[k].Pre?
    ensures CoreRuns(layers, true) && core.Raises? ==>
              !r.success && trace == PreTrace(|layers|) + [Core] + PostTrace(|layers|, |layers|)
  {
    if CoreRuns(layers, true) {
      assert PreCalls(layers, true) == |layers|;
    }
  }

  predicate Ran(trace: seq<Call>, i: nat) {
    Post(i) in trace
  }

  lemma {:induction false} RanIff<O>(layers: seq<Layer>, core: CoreRun<O>, failFast: bool, r: HookResult<O>,
          trace: seq<Call>, i: nat)
    requires Follows(layers, core, failFast, r, trace) && i < |layers|
    ensures
      var quiet := failFast && CoreRuns(layers, failFast) && core.Raises?;
      Ran(trace, i) <==> !Aborts(layers, failFast) && i >= |layers| - PostCalls(layers, failFast && !quiet)
  {
    var n, p := |layers|, PreCalls(layers, failFast);
    var quiet := failFast && CoreRuns(layers, failFast) && core.Raises?;
    var q := PostCalls(layers, failFast && !quiet);
    var inner := PreTrace(p) + if CoreRuns(layers, failFast) then [Core] else [];
    if !Aborts(layers, failFast) {
      assert trace == inner + PostTrace(n, q);
      if i >= n - q {
        assert PostTrace(n, q)[n - 1 - i] == Post(i);
        assert trace[|inner| + (n - 1 - i)] == Post(i);
      } else {
        assert Post(i) !in inner && Post(i) !in PostTrace(n, q);
      }
    }
  }

  /** Unless there are no hooks, some post-hook runs exactly if no pre-hook aborts the execution. */
  lemma {:induction false} SomePostRunsIff<O>(layers: seq<Layer>, core: CoreRun<O>, failFast: bool, r: HookResult<O>,
          trace: seq<Call>)
    requires Follows(layers, core, failFast, r, trace) && layers != []
    ensures (exists i :: 0 <= i < |layers| && Ran(trace, i)) <==> !Aborts(layers, failFast)
  {
    forall i | 0 <= i < |layers|
      ensures Ran(trace, i) ==> !Aborts(layers, failFast)
    {
      RanIff(layers, core, failFast, r, trace, i);
    }
    RanIff(layers, core, failFast, r, trace, |layers| - 1);
  }

  /** The documented promise after a cancellation, that post-hooks still run, and when it is kept:
      always without fail-fast; with it, exactly when the cancelling pre-hook did not also raise
      and no post-hook but the outermost one raises. */
  lemma {:induction false} AllPostsRunAfterCancelIff<O>(layers: seq<Layer>, core: CoreRun<O>, failFast: bool,
          r: HookResult<O>, trace: seq<Call>)
    requires Follows(layers, core, failFast, r, trace)
    requires PreCancelled(layers, failFast).Some?
    ensures
      (forall i :: 0 <= i < |layers| ==> Ran(trace, i))
      <==>
      !failFast || (layers[PreCalls(layers, failFast) - 1].pre.raises.None?
                    && forall i :: 1 <= i < |layers| ==> layers[i].post.raises.None?)
  {
    var q := PostCalls(layers, failFast);
    forall i | 0 <= i < |layers|
      ensures Ran(trace, i) <==> !Aborts(layers, failFast) && i >= |layers| - q
    {
      RanIff(layers, core, failFast, r, trace, i);
    }
    assert Ran(trace, 0) <==> !Aborts(layers, failFast) && q == |layers|;
    AllPostCallsIff(layers, failFast);
  }

  lemma {:induction false} AllPostCallsIff(layers: seq<Layer>, failFast: bool)
    ensures PostCalls(layers, failFast) == |layers|
       <==> !failFast || forall i :: 1 <= i < |layers| ==> layers[i].post.raises.None?
  {
  }

  /** An execution that breaks it: one hook that cancels and raises, under fail-fast. */
  lemma {:induction false} CancelAndRaiseSkipsPosts<O>(hook: Hook, core: CoreRun<O>, r: HookResult<O>, trace: seq<Call>)
    requires Follows([Layer(hook, Behaviour(Some("no"), Some("oops")), Behaviour(None, None))], core, true, r, trace)
    ensures PreCancelled([Layer(hook, Behaviour(Some("no"), Some("oops")), Behaviour(None, None))], true).Some?
    ensures !Ran(trace, 0)
  {
    RanIff([Layer(hook, Behaviour(Some("no"), Some("oops")), Behaviour(None, None))], core, true, r, trace, 0);
  }
}
