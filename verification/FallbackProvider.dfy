/**
 Fallback chains (agentcook-providers/src/agentcook_providers/fallback.py): try providers in
 order, go on after a retryable failure.  A chain is itself a provider, so chains nest.
 */
module FallbackProvider {
  import opened Wrappers
  import opened Seqs

  // ---- which failures fall through --------------------------------------------------------

  datatype Exc = Exc(statusCode: Option<int>, status: Option<int>, message: string)

  /** `lower` stands for Python's `str.lower`. */
  datatype Settings = Settings(codes: set<int>, keywords: seq<string>, lower: string -> string)

  const DEFAULT_CODES: set<int> := {429, 500, 502, 503, 504, 529}
  const DEFAULT_KEYWORDS: seq<string> :=
    ["overloaded", "rate limit", "capacity", "try again", "temporarily unavailable"]

  /** The constructor takes an empty collection for a missing one. */
  function Configure(codes: set<int>, keywords: seq<string>, lower: string -> string): Settings {
    Settings(if codes == {} then DEFAULT_CODES else codes, if keywords == [] then DEFAULT_KEYWORDS else keywords, lower)
  }

  /** `status_code or status`: a status code of zero counts as none. */
  function StatusOf(e: Exc): Option<int> {
    if e.statusCode.Some? && e.statusCode.value != 0 then e.statusCode else e.status
  }

  predicate StartsAt(text: string, i: nat, word: string) {
    i <= |text| && word <= text[i..]
  }

  predicate Contains(text: string, word: string) {
    exists i :: 0 <= i <= |text| && StartsAt(text, i, word)
  }

  predicate IsRetryable(s: Settings, e: Exc) {
    || (StatusOf(e).Some? && StatusOf(e).value in s.codes)
    || exists k :: 0 <= k < |s.keywords| && Contains(s.lower(e.message), s.keywords[k])
  }

  /** Retries cannot be configured away: asking for no codes gives the six default ones, and every
      code in force makes a failure fall through, whatever the message; asking for no keywords gives
      the default ones, and every message that contains one in force falls through, whatever the
      code. */
  lemma {:induction false} RetriesCannotBeSwitchedOff(codes: set<int>, keywords: seq<string>, lower: string -> string,
          code: int, message: string, k: nat)
    ensures code in (if codes == {} then {429, 500, 502, 503, 504, 529} else codes) ==>
              IsRetryable(Configure(codes, keywords, lower), Exc(None, Some(code), message))
    ensures keywords == [] && k < 5 && Contains(lower(message), DEFAULT_KEYWORDS[k]) ==>
              IsRetryable(Configure(codes, keywords, lower), Exc(None, Some(code), message))
    ensures k < |keywords| && Contains(lower(message), keywords[k]) ==>
              IsRetryable(Configure(codes, keywords, lower), Exc(None, Some(code), message))
  {
    assert StatusOf(Exc(None, Some(code), message)) == Some(code);
  }

  /** Exactly when a failure falls through: its status code, or its status if it has none but zero,
      is one of the codes, or some keyword occurs in its message in lower case. */
  lemma {:induction false} RetryableIff(s: Settings, e: Exc)
    ensures IsRetryable(s, e)
       <==> ((if e.statusCode == None || e.statusCode == Some(0) then e.status.Some? && e.status.value in s.codes
              else e.statusCode.value in s.codes)
             || exists k, a, b :: 0 <= k < |s.keywords| && Occurs(s.lower(e.message), s.keywords[k], a, b))
  {
    if k :| 0 <= k < |s.keywords| && Contains(s.lower(e.message), s.keywords[k]) {
      var text, word := s.lower(e.message), s.keywords[k];
      var i :| 0 <= i <= |text| && StartsAt(text, i, word);
      assert text == text[..i] + word + text[i..][|word|..];
      assert Occurs(text, word, text[..i], text[i..][|word|..]);
    }
    if k, a, b :| 0 <= k < |s.keywords| && Occurs(s.lower(e.message), s.keywords[k], a, b) {
      var text := s.lower(e.message);
      assert text[|a|..] == s.keywords[k] + b;
      assert StartsAt(text, |a|, s.keywords[k]);
    }
  }

  predicate Occurs(text: string, word: string, a: string, b: string) {
    text == a + word + b
  }

  /** What falls through when nothing is configured: six codes and five phrases. */
  lemma {:induction false} DefaultsAre(lower: string -> string, e: Exc)
    ensures IsRetryable(Configure({}, [], lower), e)
       <==> ((if e.statusCode == None || e.statusCode == Some(0) then
                e.status.Some? && e.status.value in {429, 500, 502, 503, 504, 529}
              else e.statusCode.value in {429, 500, 502, 503, 504, 529})
             || exists word, a, b ::
                  && word in {"overloaded", "rate limit", "capacity", "try again", "temporarily unavailable"}
                  && Occurs(lower(e.message), word, a, b))
  {
    var s := Configure({}, [], lower);
    RetryableIff(s, e);
    var words := {"overloaded", "rate limit", "capacity", "try again", "temporarily unavailable"};
    assert s.keywords[0] in words && s.keywords[1] in words && s.keywords[2] in words && s.keywords[3] in words
        && s.keywords[4] in words;
    if word, a, b :| word in words && Occurs(lower(e.message), word, a, b) {
      assert s.keywords == ["overloaded", "rate limit", "capacity", "try again", "temporarily unavailable"];
      var k :| 0 <= k < |s.keywords| && s.keywords[k] == word;
      assert Occurs(s.lower(e.message), s.keywords[k], a, b);
    }
  }

  /** And otherwise what is configured, codes and phrases each on their own. */
  lemma {:induction false} ConfiguredAre(codes: set<int>, keywords: seq<string>, lower: string -> string)
    ensures Configure(codes, keywords, lower).lower == lower
    ensures codes != {} ==> Configure(codes, keywords, lower).codes == codes
    ensures codes == {} ==> Configure(codes, keywords, lower).codes == Configure({}, [], lower).codes
    ensures keywords != [] ==> Configure(codes, keywords, lower).keywords == keywords
    ensures keywords == [] ==> Configure(codes, keywords, lower).keywords == Configure({}, [], lower).keywords
  {
  }

  // ---- providers ----------------------------------------------------------------------------

  datatype ChatOutcome<R> = Answer(response: R) | Raise(exc: Exc)

  /** The chunks a stream yields before it ends, regularly or with an exception. */
  datatype StreamOutcome<C> = StreamOutcome(chunks: seq<C>, failure: Option<Exc>)

  /** A leaf stands for a vendor's provider and what it does when called; all chains of a tree
      have equal retry settings. */
  datatype Provider<R, C> =
    | Leaf(id: nat, chat: ChatOutcome<R>, stream: StreamOutcome<C>)
    | Chain(providers: seq<Provider<R, C>>)

  /** The constructor refuses an empty chain. */
  predicate WellFormed<R, C>(p: Provider<R, C>) {
    p.Chain? ==> p.providers != [] && forall i :: 0 <= i < |p.providers| ==> WellFormed(p.providers[i])
  }

  predicate AllWellFormed<R, C>(ps: seq<Provider<R, C>>) {
    forall i :: 0 <= i < |ps| ==> WellFormed(ps[i])
  }

  /** What a call comes to, and which leaves were called on the way. */
  datatype ChatRun<R> = ChatRun(outcome: ChatOutcome<R>, called: seq<nat>)

  datatype StreamRun<C> = StreamRun(outcome: StreamOutcome<C>, called: seq<nat>) {
    /** This run behind the calls and chunks of a provider that was given up. */
    function Behind(calls: seq<nat>, chunks: seq<C>): StreamRun<C> {
      StreamRun(StreamOutcome(chunks + outcome.chunks, outcome.failure), calls + called)
    }
  }

  /** Whether a chain goes on to the next provider. */
  predicate FallsThrough(s: Settings, failure: Option<Exc>, hasNext: bool) {
    failure.Some? && hasNext && IsRetryable(s, failure.value)
  }

  function FailureOf<R>(o: ChatOutcome<R>): Option<Exc> {
    match o case Answer(_) => None case Raise(e) => Some(e)
  }

  function Chat<R, C>(s: Settings, p: Provider<R, C>): ChatRun<R>
    requires WellFormed(p)
    decreases p
  {
    match p
    case Leaf(id, chat, _) => ChatRun(chat, [id])
    case Chain(providers) => ChatInOrder(s, providers)
  }

  function ChatInOrder<R, C>(s: Settings, ps: seq<Provider<R, C>>): ChatRun<R>
    requires ps != [] && AllWellFormed(ps)
    decreases ps
  {
    var first := Chat(s, ps[0]);
    if FallsThrough(s, FailureOf(first.outcome), |ps| > 1) then
      var rest := ChatInOrder(s, ps[1..]);
      ChatRun(rest.outcome, first.called + rest.called)
    else first
  }

  function Stream<R, C>(s: Settings, p: Provider<R, C>): StreamRun<C>
    requires WellFormed(p)
    decreases p
  {
    match p
    case Leaf(id, _, stream) => StreamRun(stream, [id])
    case Chain(providers) => StreamInOrder(s, providers)
  }

  function StreamInOrder<R, C>(s: Settings, ps: seq<Provider<R, C>>): StreamRun<C>
    requires ps != [] && AllWellFormed(ps)
    decreases ps
  {
    var first := Stream(s, ps[0]);
    if FallsThrough(s, first.outcome.failure, |ps| > 1) then
      StreamInOrder(s, ps[1..]).Behind(first.called, first.outcome.chunks)
    else first
  }

  // ---- the loops ------------------------------------------------------------------------------

  /** `chat`: the loop over the providers; a nested chain runs its own loop. */
  method RunChat<R, C>(s: Settings, p: Provider<R, C>) returns (r: ChatRun<R>)
    requires WellFormed(p)
    ensures r == Chat(s, p)
    decreases p
  {
    match p {
      case Leaf(id, chat, _) => r := ChatRun(chat, [id]);
      case Chain(providers) =>
        var called: seq<nat> := [];
        var i := 0;
        assert providers[0..] == providers;
        while true
          invariant 0 <= i < |providers|
          invariant
            var rest := ChatInOrder(s, providers[i..]);
            Chat(s, p) == ChatRun(rest.outcome, called + rest.called)
          decreases |providers| - i
        {
          var sub := RunChat(s, providers[i]);
          ghost var before := called;
          called := called + sub.called;
          if sub.outcome.Answer? {
            return ChatRun(sub.outcome, called);
          }
          if !(i < |providers| - 1 && IsRetryable(s, sub.outcome.exc)) {
            return ChatRun(sub.outcome, called);
          }
          assert providers[i..][1..] == providers[i + 1..];
          ghost var rest := ChatInOrder(s, providers[i + 1..]);
          assert before + (sub.called + rest.called) == called + rest.called;
          i := i + 1;
        }
    }
  }

  lemma {:induction false} BehindBoth<C>(rest: StreamRun<C>, calls: seq<nat>, chunks: seq<C>, calls': seq<nat>,
          chunks': seq<C>)
    ensures rest.Behind(calls', chunks').Behind(calls, chunks) == rest.Behind(calls + calls', chunks + chunks')
    ensures rest.Behind([], []) == rest
  {
    JoinAssociates(calls, calls', rest.called);
    JoinAssociates(chunks, chunks', rest.outcome.chunks);
    assert [] + rest.called == rest.called && [] + rest.outcome.chunks == rest.outcome.chunks;
  }

  /** `stream_chat`: what has been yielded stays yielded when a provider fails midway. */
  method RunStream<R, C>(s: Settings, p: Provider<R, C>) returns (r: StreamRun<C>)
    requires WellFormed(p)
    ensures r == Stream(s, p)
    decreases p
  {
    match p {
      case Leaf(id, _, stream) => r := StreamRun(stream, [id]);
      case Chain(providers) =>
        var called: seq<nat>, yielded: seq<C> := [], [];
        var i := 0;
        ghost var ahead: StreamRun<C> := StreamInOrder(s, providers);
        BehindBoth(ahead, [], [], [], []);
        assert providers[0..] == providers;
        while true
          invariant 0 <= i < |providers|
          invariant ahead == StreamInOrder(s, providers[i..])
          invariant Stream(s, p) == ahead.Behind(called, yielded)
          decreases |providers| - i
        {
          var sub := RunStream(s, providers[i]);
          if sub.outcome.failure.None? || !(i < |providers| - 1 && IsRetryable(s, sub.outcome.failure.value)) {
            return StreamRun(StreamOutcome(yielded + sub.outcome.chunks, sub.outcome.failure), called + sub.called);
          }
          assert providers[i..][1..] == providers[i + 1..];
          ahead := StreamInOrder(s, providers[i + 1..]);
          BehindBoth(ahead, called, yielded, sub.called, sub.outcome.chunks);
          called, yielded := called + sub.called, yielded + sub.outcome.chunks;
          i := i + 1;
        }
    }
  }

  // ---- flattening -------------------------------------------------------------------------------

  /** The leaves of a tree, left to right. */
  function Leaves<R, C>(p: Provider<R, C>): (ls: seq<Provider<R, C>>)
    ensures forall i :: 0 <= i < |ls| ==> ls[i].Leaf?
    ensures WellFormed(p) ==> ls != []
    decreases p
  {
    match p
    case Leaf(_, _, _) => [p]
    case Chain(providers) => LeavesOf(providers)
  }

  function LeavesOf<R, C>(ps: seq<Provider<R, C>>): (ls: seq<Provider<R, C>>)
    ensures forall i :: 0 <= i < |ls| ==> ls[i].Leaf?
    ensures ps != [] && WellFormed(ps[0]) ==> ls != []
    decreases ps
  {
    if ps == [] then [] else Leaves(ps[0]) + LeavesOf(ps[1..])
  }

  /** Two chains in a row: the second is entered when the first ends in a retryable failure. */
  lemma {:induction false} ChatSplits<R, C>(s: Settings, a: seq<Provider<R, C>>, b: seq<Provider<R, C>>)
    requires a != [] && b != [] && AllWellFormed(a) && AllWellFormed(b)
    ensures AllWellFormed(a + b)
    ensures
      var first, second := ChatInOrder(s, a), ChatInOrder(s, b);
      ChatInOrder(s, a + b)
        == if FallsThrough(s, FailureOf(first.outcome), true) then ChatRun(second.outcome, first.called + second.called)
           else first
  {
    assert (a + b)[0] == a[0] && (a + b)[1..] == a[1..] + b;
    if |a| > 1 {
      ChatSplits(s, a[1..], b);
      var head, rest, second := Chat(s, a[0]), ChatInOrder(s, a[1..]), ChatInOrder(s, b);
      assert head.called + (rest.called + second.called) == head.called + rest.called + second.called;
    } else {
      assert a[1..] + b == b;
    }
  }

  lemma {:induction false} StreamSplits<R, C>(s: Settings, a: seq<Provider<R, C>>, b: seq<Provider<R, C>>)
    requires a != [] && b != [] && AllWellFormed(a) && AllWellFormed(b)
    ensures AllWellFormed(a + b)
    ensures
      var first, second := StreamInOrder(s, a), StreamInOrder(s, b);
      StreamInOrder(s, a + b)
        == if FallsThrough(s, first.outcome.failure, true) then second.Behind(first.called, first.outcome.chunks)
           else first
  {
    assert (a + b)[0] == a[0] && (a + b)[1..] == a[1..] + b;
    if |a| > 1 {
      StreamSplits(s, a[1..], b);
      var head, rest, second := Stream(s, a[0]), StreamInOrder(s, a[1..]), StreamInOrder(s, b);
      BehindBoth(second, head.called, head.outcome.chunks, rest.called, rest.outcome.chunks);
    } else {
      assert a[1..] + b == b;
    }
  }

  /** Nested chains flatten: a tree of chains returns or raises, and streams, exactly what one
      flat chain of its leaves does, and calls the same leaves in the same order. */
  lemma {:induction false} NestedIsFlat<R, C>(s: Settings, p: Provider<R, C>)
    requires WellFormed(p)
    ensures Chat(s, p) == ChatInOrder(s, Leaves(p))
    ensures Stream(s, p) == StreamInOrder(s, Leaves(p))
    decreases p
  {
    if p.Chain? {
      AllIsFlat(s, p.providers);
    }
  }

  lemma {:induction false} AllIsFlat<R, C>(s: Settings, ps: seq<Provider<R, C>>)
    requires ps != [] && AllWellFormed(ps)
    ensures ChatInOrder(s, ps) == ChatInOrder(s, LeavesOf(ps))
    ensures StreamInOrder(s, ps) == StreamInOrder(s, LeavesOf(ps))
    decreases ps
  {
    NestedIsFlat(s, ps[0]);
    if |ps| > 1 {
      AllIsFlat(s, ps[1..]);
      ChatSplits(s, Leaves(ps[0]), LeavesOf(ps[1..]));
      StreamSplits(s, Leaves(ps[0]), LeavesOf(ps[1..]));
    } else {
      assert LeavesOf(ps) == Leaves(ps[0]) + [] == Leaves(ps[0]);
    }
  }

  // ---- who decides ----------------------------------------------------------------------------

  function IdOf<R, C>(): Provider<R, C> -> nat {
    (p: Provider<R, C>) => if p.Leaf? then p.id else 0
  }

  function ChunksOf<R, C>(): Provider<R, C> -> seq<C> {
    (p: Provider<R, C>) => if p.Leaf? then p.stream.chunks else []
  }

  /** The stream of a flat chain is the partial output of every provider that failed retryably,
      followed by that of the first one that did not, or of the last. */
  lemma {:induction false} StreamDecider<R, C>(s: Settings, ls: seq<Provider<R, C>>) returns (d: nat)
    requires ls != [] && forall i :: 0 <= i < |ls| ==> ls[i].Leaf?
    ensures d < |ls|
    ensures forall i :: 0 <= i < d ==> FallsThrough(s, ls[i].stream.failure, true)
    ensures d < |ls| - 1 ==> !FallsThrough(s, ls[d].stream.failure, true)
    ensures
      var run := StreamInOrder(s, ls);
      && run.outcome.chunks == Concat(Map(ls[..d + 1], ChunksOf()))
      && run.outcome.failure == ls[d].stream.failure
      && run.called == Map(ls[..d + 1], IdOf())
  {
    if FallsThrough(s, ls[0].stream.failure, |ls| > 1) {
      var e := StreamDecider(s, ls[1..]);
      d := e + 1;
      MapOfTake(ls, d, ChunksOf());
      MapOfTake(ls, d, IdOf());
      ConcatFirst(ls[0].stream.chunks, Map(ls[1..][..d], ChunksOf()));
    } else {
      d := 0;
      assert Map(ls[..1], ChunksOf()) == [ls[0].stream.chunks];
      assert Concat([ls[0].stream.chunks]) == ls[0].stream.chunks + Concat([]);
      assert Map(ls[..1], IdOf()) == [ls[0].id];
    }
  }

  /** Likewise the answer of a flat chain is that of the first provider that does not fail
      retryably, or of the last; only those before it were called. */
  lemma {:induction false} ChatDecider<R, C>(s: Settings, ls: seq<Provider<R, C>>) returns (d: nat)
    requires ls != [] && forall i :: 0 <= i < |ls| ==> ls[i].Leaf?
    ensures d < |ls|
    ensures forall i :: 0 <= i < d ==> FallsThrough(s, FailureOf(ls[i].chat), true)
    ensures d < |ls| - 1 ==> !FallsThrough(s, FailureOf(ls[d].chat), true)
    ensures ChatInOrder(s, ls) == ChatRun(ls[d].chat, Map(ls[..d + 1], IdOf()))
  {
    if FallsThrough(s, FailureOf(ls[0].chat), |ls| > 1) {
      var e := ChatDecider(s, ls[1..]);
      d := e + 1;
      MapOfTake(ls, d, IdOf());
    } else {
      d := 0;
      assert Map(ls[..1], IdOf()) == [ls[0].id];
    }
  }

  /** A chain of two providers goes on to the second exactly if the first fails retryably: a failure
      with another code and without a keyword is raised at once, and so is any failure of the last
      provider. */
  lemma {:induction false} GoesOnIff<R, C>(s: Settings, first: Provider<R, C>, rest: seq<Provider<R, C>>, e: Exc)
    requires WellFormed(first) && AllWellFormed(rest)
    ensures Chat(s, first).outcome == Raise(e) && rest != [] && IsRetryable(s, e) ==>
              ChatInOrder(s, [first] + rest)
                == ChatRun(ChatInOrder(s, rest).outcome, Chat(s, first).called + ChatInOrder(s, rest).called)
    ensures Chat(s, first).outcome.Answer? || rest == []
            || (Chat(s, first).outcome == Raise(e) && !IsRetryable(s, e)) ==>
              ChatInOrder(s, [first] + rest) == Chat(s, first)
    ensures Stream(s, first).outcome.failure == Some(e) && rest != [] && IsRetryable(s, e) ==>
              && StreamInOrder(s, [first] + rest).outcome.chunks
                   == Stream(s, first).outcome.chunks + StreamInOrder(s, rest).outcome.chunks
              && StreamInOrder(s, [first] + rest).outcome.failure == StreamInOrder(s, rest).outcome.failure
              && StreamInOrder(s, [first] + rest).called == Stream(s, first).called + StreamInOrder(s, rest).called
    ensures Stream(s, first).outcome.failure == None || rest == []
            || (Stream(s, first).outcome.failure == Some(e) && !IsRetryable(s, e)) ==>
              StreamInOrder(s, [first] + rest) == Stream(s, first)
  {
    assert ([first] + rest)[1..] == rest;
  }
}
