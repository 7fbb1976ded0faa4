/**
 Reassembly of streamed tool calls (the accumulation loop of `stream_chat` in
 agentcook-providers/src/agentcook_providers/openai_provider.py): fragments of several calls
 arrive interleaved, keyed by index.  `loads` stands for json.loads, None when it raises.
 */
module ToolCallStream {
  import opened Wrappers
  import opened Seqs

  /** One tool-call delta.  Absent fields are empty strings, which the code treats alike;
      `generated` is the identifier that would be made up for a slot without one. */
  datatype Fragment = Fragment(index: int, id: string, generated: string, name: string, arguments: string) {
    function SlotId(): string {
      if id != "" then id else generated
    }
  }

  datatype Finish = Stop | Length | ToolCalls | ContentFilter

  /** A chunk of the vendor's stream; `finish` is None for any other finish reason. */
  datatype Chunk = NoChoices | Chunk(content: string, fragments: seq<Fragment>, finish: Option<Finish>)

  /** An entry of the `accumulated` dictionary, which keeps insertion order. */
  datatype Slot = Slot(index: int, id: string, name: string, arguments: string)

  datatype ToolCall<A> = ToolCall(id: string, name: string, arguments: A)

  datatype ChatChunk<A> = ChatChunk(deltaContent: string, deltaToolCalls: seq<ToolCall<A>>, finish: Option<Finish>)

  /** `setdefault` followed by appending to the slot. */
  function Feed(slots: seq<Slot>, f: Fragment): seq<Slot> {
    if slots == [] then [Slot(f.index, f.SlotId(), f.name, f.arguments)]
    else if slots[0].index == f.index then
      [Slot(f.index, slots[0].id, slots[0].name + f.name, slots[0].arguments + f.arguments)] + slots[1..]
    else [slots[0]] + Feed(slots[1..], f)
  }

  function FeedAll(fragments: seq<Fragment>): seq<Slot> {
    if fragments == [] then [] else Feed(FeedAll(fragments[..|fragments| - 1]), fragments[|fragments| - 1])
  }

  // ---- what the slots hold -----------------------------------------------------------------

  function OfIndex(index: int): Fragment -> bool {
    (f: Fragment) => f.index == index
  }

  function NameOf(): Fragment -> string {
    (f: Fragment) => f.name
  }

  function ArgumentsOf(): Fragment -> string {
    (f: Fragment) => f.arguments
  }

  /** The fragments of one call, in arrival order. */
  function Pieces(fragments: seq<Fragment>, index: int): seq<Fragment> {
    Filter(fragments, OfIndex(index))
  }

  /** Each index once, in the order of its first fragment. */
  function FirstAppearance(fragments: seq<Fragment>): seq<int> {
    if fragments == [] then [] else
      var before, f := FirstAppearance(fragments[..|fragments| - 1]), fragments[|fragments| - 1];
      if f.index in before then before else before + [f.index]
  }

  /** A call put together from its own fragments: the first one names it, all of them join. */
  function Joined(index: int, pieces: seq<Fragment>): Slot
  {
    Slot(index, if pieces == [] then "" else pieces[0].SlotId(),
         Concat(Map(pieces, NameOf())), Concat(Map(pieces, ArgumentsOf())))
  }

  function JoinedFrom(fragments: seq<Fragment>): int -> Slot {
    (index: int) => Joined(index, Pieces(fragments, index))
  }

  lemma {:induction false} AppearsIffHasPieces(fragments: seq<Fragment>, index: int)
    ensures index in FirstAppearance(fragments) <==> Pieces(fragments, index) != []
  {
    if fragments != [] {
      var front, f := fragments[..|fragments| - 1], fragments[|fragments| - 1];
      AppearsIffHasPieces(front, index);
      assert fragments == front + [f];
      FilterConcat(front, [f], OfIndex(index));
    }
  }

  lemma {:induction false} AppearancesAreDistinct(fragments: seq<Fragment>)
    ensures forall i, j :: 0 <= i < j < |FirstAppearance(fragments)| ==>
              FirstAppearance(fragments)[i] != FirstAppearance(fragments)[j]
  {
    if fragments != [] {
      AppearancesAreDistinct(fragments[..|fragments| - 1]);
    }
  }

  /** One more piece at the end of a call. */
  lemma {:induction false} JoinOneMore(index: int, pieces: seq<Fragment>, f: Fragment)
    requires pieces != []
    ensures Joined(index, pieces + [f])
         == var s := Joined(index, pieces); Slot(index, s.id, s.name + f.name, s.arguments + f.arguments)
  {
    MapConcat(pieces, [f], NameOf());
    MapConcat(pieces, [f], ArgumentsOf());
    assert Map([f], NameOf()) == [f.name] && Map([f], ArgumentsOf()) == [f.arguments];
    ConcatSnoc(Map(pieces, NameOf()), f.name);
    ConcatSnoc(Map(pieces, ArgumentsOf()), f.arguments);
  }

  lemma {:induction false} JoinFirst(index: int, f: Fragment)
    ensures Joined(index, [f]) == Slot(index, f.SlotId(), f.name, f.arguments)
  {
    assert Map([f], NameOf()) == [f.name] && Map([f], ArgumentsOf()) == [f.arguments];
    assert Concat([f.name]) == f.name + Concat([]) && Concat([f.arguments]) == f.arguments + Concat([]);
  }

  /** Feeding a fragment changes the slot of its index and nothing else. */
  lemma {:induction false} FeedUpdatesItsSlot(slots: seq<Slot>, f: Fragment, k: nat)
    requires k < |slots| && slots[k].index == f.index
    requires forall i :: 0 <= i < k ==> slots[i].index != f.index
    ensures Feed(slots, f)
         == slots[k := Slot(f.index, slots[k].id, slots[k].name + f.name, slots[k].arguments + f.arguments)]
  {
    if k > 0 {
      FeedUpdatesItsSlot(slots[1..], f, k - 1);
    }
  }

  lemma {:induction false} FeedOpensASlot(slots: seq<Slot>, f: Fragment)
    requires forall i :: 0 <= i < |slots| ==> slots[i].index != f.index
    ensures Feed(slots, f) == slots + [Slot(f.index, f.SlotId(), f.name, f.arguments)]
  {
    if slots != [] {
      FeedOpensASlot(slots[1..], f);
    }
  }

  /** What one more fragment does to a call that has appeared. */
  lemma {:induction false} PieceJoins(front: seq<Fragment>, f: Fragment, index: int)
    requires index in FirstAppearance(front)
    ensures
      var s := JoinedFrom(front)(index);
      JoinedFrom(front + [f])(index)
        == if index != f.index then s else Slot(index, s.id, s.name + f.name, s.arguments + f.arguments)
  {
    FilterConcat(front, [f], OfIndex(index));
    AppearsIffHasPieces(front, index);
    if index == f.index {
      assert Filter([f], OfIndex(index)) == [f];
      JoinOneMore(index, Pieces(front, index), f);
    } else {
      assert Pieces(front, index) + [] == Pieces(front, index);
    }
  }

  lemma {:induction false} PieceOpens(front: seq<Fragment>, f: Fragment)
    requires f.index !in FirstAppearance(front)
    ensures JoinedFrom(front + [f])(f.index) == Slot(f.index, f.SlotId(), f.name, f.arguments)
  {
    AppearsIffHasPieces(front, f.index);
    FilterConcat(front, [f], OfIndex(f.index));
    assert Pieces(front + [f], f.index) == [f];
    JoinFirst(f.index, f);
  }

  lemma {:induction false} AppearanceSnoc(front: seq<Fragment>, f: Fragment)
    ensures FirstAppearance(front + [f])
         == if f.index in FirstAppearance(front) then FirstAppearance(front) else FirstAppearance(front) + [f.index]
  {
    assert (front + [f])[..|front|] == front;
  }

  lemma {:induction false} FeedJoinsKnown(front: seq<Fragment>, f: Fragment)
    requires f.index in FirstAppearance(front)
    ensures Feed(Map(FirstAppearance(front), JoinedFrom(front)), f)
         == Map(FirstAppearance(front), JoinedFrom(front + [f]))
  {
    var order := FirstAppearance(front);
    var slots, slots' := Map(order, JoinedFrom(front)), Map(order, JoinedFrom(front + [f]));
    var k :| 0 <= k < |order| && order[k] == f.index;
    AppearancesAreDistinct(front);
    FeedUpdatesItsSlot(slots, f, k);
    var fed := Slot(f.index, slots[k].id, slots[k].name + f.name, slots[k].arguments + f.arguments);
    forall i | 0 <= i < |order|
      ensures slots'[i] == if i == k then fed else slots[i]
    {
      PieceJoins(front, f, order[i]);
    }
    assert slots' == slots[k := fed];
  }

  lemma {:induction false} FeedJoinsNew(front: seq<Fragment>, f: Fragment)
    requires f.index !in FirstAppearance(front)
    ensures Feed(Map(FirstAppearance(front), JoinedFrom(front)), f)
         == Map(FirstAppearance(front) + [f.index], JoinedFrom(front + [f]))
  {
    var order := FirstAppearance(front);
    var slots, slots' := Map(order, JoinedFrom(front)), Map(order, JoinedFrom(front + [f]));
    forall i | 0 <= i < |order|
      ensures slots'[i] == slots[i]
    {
      PieceJoins(front, f, order[i]);
    }
    assert slots' == slots;
    FeedOpensASlot(slots, f);
    PieceOpens(front, f);
    MapConcat(order, [f.index], JoinedFrom(front + [f]));
    assert Map([f.index], JoinedFrom(front + [f])) == [JoinedFrom(front + [f])(f.index)];
  }

  lemma {:induction false} FeedAllSnoc(front: seq<Fragment>, f: Fragment)
    ensures FeedAll(front + [f]) == Feed(FeedAll(front), f)
  {
    assert (front + [f])[..|front|] == front;
  }

  /** After any stream of fragments the slots are, in order of first appearance, the calls put
      together each from its own fragments: interleaving leaves no trace. */
  lemma {:induction false} SlotsAreJoinedPieces(fragments: seq<Fragment>)
    ensures FeedAll(fragments) == Map(FirstAppearance(fragments), JoinedFrom(fragments))
  {
    if fragments != [] {
      var front, f := fragments[..|fragments| - 1], fragments[|fragments| - 1];
      assert fragments == front + [f];
      SlotsAreJoinedPieces(front);
      FeedAllSnoc(front, f);
      AppearanceSnoc(front, f);
      if f.index in FirstAppearance(front) {
        FeedJoinsKnown(front, f);
      } else {
        FeedJoinsNew(front, f);
      }
    }
  }

  // ---- undoing a fragmentation -------------------------------------------------------------

  /** A call as the model made it. */
  datatype Call = Call(index: int, id: string, name: string, arguments: string)

  /** `pieces` is a way of cutting `call` into fragments: the first one carries the id. */
  ghost predicate Cuts(call: Call, pieces: seq<Fragment>) {
    && pieces != []
    && (forall i :: 0 <= i < |pieces| ==> pieces[i].index == call.index)
    && call.id == (if pieces[0].id != "" then pieces[0].id else pieces[0].generated)
    && Concat(Map(pieces, NameOf())) == call.name
    && Concat(Map(pieces, ArgumentsOf())) == call.arguments
  }

  /** `fragments` interleaves the pieces of the calls, keeping the order within each call. */
  ghost predicate Interleaves(calls: seq<Call>, pieces: seq<seq<Fragment>>, fragments: seq<Fragment>) {
    && |pieces| == |calls|
    && (forall i, j :: 0 <= i < j < |calls| ==> calls[i].index != calls[j].index)
    && (forall i :: 0 <= i < |calls| ==> Cuts(calls[i], pieces[i]) && Pieces(fragments, calls[i].index) == pieces[i])
    && (forall k :: 0 <= k < |fragments| ==> exists i :: 0 <= i < |calls| && calls[i].index == fragments[k].index)
  }

  function SlotOf(call: Call): Slot {
    Slot(call.index, call.id, call.name, call.arguments)
  }

  /** For every cutting and every interleaving, the slots are exactly the calls, each once, in
      the order in which they first appeared. */
  lemma {:induction false} ReassemblyUndoesFragmentation(calls: seq<Call>, pieces: seq<seq<Fragment>>,
          fragments: seq<Fragment>)
    requires Interleaves(calls, pieces, fragments)
    ensures
      var slots, order := FeedAll(fragments), FirstAppearance(fragments);
      && |slots| == |order|
      && (forall k :: 0 <= k < |slots| ==> slots[k].index == order[k])
      && (forall j, k :: 0 <= j < k < |slots| ==> slots[j].index != slots[k].index)
      && (forall i :: 0 <= i < |calls| ==> SlotOf(calls[i]) in slots && calls[i].index in order)
      && (forall k :: 0 <= k < |slots| ==> exists i :: 0 <= i < |calls| && slots[k] == SlotOf(calls[i]))
  {
    SlotsAreJoinedPieces(fragments);
    AppearancesAreDistinct(fragments);
    var slots, order := FeedAll(fragments), FirstAppearance(fragments);
    forall i | 0 <= i < |calls|
      ensures SlotOf(calls[i]) in slots && calls[i].index in order
    {
      assert Cuts(calls[i], pieces[i]);
      AppearsIffHasPieces(fragments, calls[i].index);
      var k :| 0 <= k < |order| && order[k] == calls[i].index;
      assert slots[k] == SlotOf(calls[i]);
    }
    forall k | 0 <= k < |slots|
      ensures exists i :: 0 <= i < |calls| && slots[k] == SlotOf(calls[i])
    {
      var i := CallThatAppeared(calls, pieces, fragments, order[k]);
      assert slots[k] == SlotOf(calls[i]);
    }
  }

  lemma {:induction false} CallThatAppeared(calls: seq<Call>, pieces: seq<seq<Fragment>>, fragments: seq<Fragment>,
          index: int) returns (i: nat)
    requires Interleaves(calls, pieces, fragments) && index in FirstAppearance(fragments)
    ensures i < |calls| && calls[i].index == index && JoinedFrom(fragments)(index) == SlotOf(calls[i])
  {
    AppearsIffHasPieces(fragments, index);
    FilterMembers(fragments, OfIndex(index));
    var f := Pieces(fragments, index)[0];
    assert f in Pieces(fragments, index);
    var m :| 0 <= m < |fragments| && fragments[m] == f;
    i :| 0 <= i < |calls| && calls[i].index == fragments[m].index;
    assert Cuts(calls[i], pieces[i]);
  }

  // ---- the stream ----------------------------------------------------------------------------

  function HasChoice(): Chunk -> bool {
    (c: Chunk) => c.Chunk?
  }

  function FragmentsOf(): Chunk -> seq<Fragment> {
    (c: Chunk) => if c.Chunk? then c.fragments else []
  }

  function ContentOf(): Chunk -> string {
    (c: Chunk) => if c.Chunk? then c.content else ""
  }

  /** Empty arguments stand for no arguments and are not parsed. */
  predicate Parses<A>(loads: string -> Option<A>, s: Slot) {
    s.arguments == "" || loads(s.arguments).Some?
  }

  function Emitted<A>(loads: string -> Option<A>, none: A, s: Slot): ToolCall<A>
    requires Parses(loads, s)
  {
    ToolCall(s.id, s.name, if s.arguments == "" then none else loads(s.arguments).value)
  }

  predicate AllParse<A>(loads: string -> Option<A>, slots: seq<Slot>) {
    forall i :: 0 <= i < |slots| ==> Parses(loads, slots[i])
  }

  function EmittedCalls<A>(loads: string -> Option<A>, none: A, slots: seq<Slot>): seq<ToolCall<A>>
    requires AllParse(loads, slots)
  {
    seq(|slots|, i requires 0 <= i < |slots| => Emitted(loads, none, slots[i]))
  }

  /** The slots once the chunks so far have been read. */
  function SlotsAfter(live: seq<Chunk>): seq<Slot> {
    FeedAll(Concat(Map(live, FragmentsOf())))
  }

  /** The chunk passed on for the last of `live`: its own text, and all reassembled calls if it
      finishes with tool calls, none otherwise. */
  ghost predicate Answers<A>(loads: string -> Option<A>, none: A, live: seq<Chunk>, answer: ChatChunk<A>)
    requires live != [] && live[|live| - 1].Chunk?
  {
    var last := live[|live| - 1];
    && answer.deltaContent == last.content
    && answer.finish == last.finish
    && if last.finish == Some(ToolCalls) then
         AllParse(loads, SlotsAfter(live)) && answer.deltaToolCalls == EmittedCalls(loads, none, SlotsAfter(live))
       else answer.deltaToolCalls == []
  }

  lemma {:induction false} AllHaveChoice(chunks: seq<Chunk>)
    ensures forall i :: 0 <= i < |Filter(chunks, HasChoice())| ==> Filter(chunks, HasChoice())[i].Chunk?
  {
    if chunks != [] {
      AllHaveChoice(chunks[1..]);
    }
  }

  lemma {:induction false} FeedChunk(live: seq<Chunk>, c: Chunk, j: nat)
    requires c.Chunk? && j < |c.fragments|
    ensures FeedAll(Concat(Map(live, FragmentsOf())) + c.fragments[..j + 1])
         == Feed(FeedAll(Concat(Map(live, FragmentsOf())) + c.fragments[..j]), c.fragments[j])
  {
    var all := Concat(Map(live, FragmentsOf())) + c.fragments[..j + 1];
    assert all[..|all| - 1] == Concat(Map(live, FragmentsOf())) + c.fragments[..j];
  }

  lemma {:induction false} SlotsAfterChunk(live: seq<Chunk>, c: Chunk)
    requires c.Chunk?
    ensures SlotsAfter(live + [c]) == FeedAll(Concat(Map(live, FragmentsOf())) + c.fragments)
  {
    MapConcat(live, [c], FragmentsOf());
    assert Map([c], FragmentsOf()) == [c.fragments];
    ConcatSnoc(Map(live, FragmentsOf()), c.fragments);
  }

  /** The first chunks are answered, each on the strength of the chunks up to it. */
  ghost predicate Answered<A>(loads: string -> Option<A>, none: A, live: seq<Chunk>, answers: seq<ChatChunk<A>>) {
    && (forall j :: 0 <= j < |live| ==> live[j].Chunk?)
    && |answers| <= |live|
    && forall j :: 0 <= j < |answers| ==> Answers(loads, none, live[..j + 1], answers[j])
  }

  lemma {:induction false} AnsweredMore<A>(loads: string -> Option<A>, none: A, live: seq<Chunk>,
          answers: seq<ChatChunk<A>>, more: seq<Chunk>)
    requires Answered(loads, none, live, answers)
    requires forall j :: 0 <= j < |more| ==> more[j].Chunk?
    ensures Answered(loads, none, live + more, answers)
  {
    forall j | 0 <= j < |answers|
      ensures Answers(loads, none, (live + more)[..j + 1], answers[j])
    {
      assert (live + more)[..j + 1] == live[..j + 1];
    }
  }

  lemma {:induction false} AnsweredOneMore<A>(loads: string -> Option<A>, none: A, live: seq<Chunk>,
          answers: seq<ChatChunk<A>>, c: Chunk, answer: ChatChunk<A>)
    requires Answered(loads, none, live, answers) && |answers| == |live|
    requires c.Chunk? && Answers(loads, none, live + [c], answer)
    ensures Answered(loads, none, live + [c], answers + [answer])
  {
    AnsweredMore(loads, none, live, answers, [c]);
    assert (live + [c])[..|live| + 1] == live + [c];
  }

  /** Every chunk with a choice is answered in order; the stream breaks off only where a finished
      call's arguments do not parse. */
  ghost predicate StreamEnds<A>(loads: string -> Option<A>, none: A, live: seq<Chunk>, answers: seq<ChatChunk<A>>,
          raised: bool)
  {
    && Answered(loads, none, live, answers)
    && if raised then
         && |answers| < |live| && live[|answers|].finish == Some(ToolCalls)
         && !AllParse(loads, SlotsAfter(live[..|answers| + 1]))
       else |answers| == |live|
  }

  /** The accumulation loop, up to the end of the chunks or the first exception. */
  method StreamChat<A>(loads: string -> Option<A>, none: A, chunks: seq<Chunk>)
    returns (answers: seq<ChatChunk<A>>, raised: bool)
    ensures StreamEnds(loads, none, Filter(chunks, HasChoice()), answers, raised)
  {
    answers, raised := [], false;
    var accumulated: seq<Slot> := [];
    ghost var live: seq<Chunk> := [];
    for i := 0 to |chunks|
      invariant live == Filter(chunks[..i], HasChoice()) && |live| == |answers|
      invariant accumulated == SlotsAfter(live)
      invariant Answered(loads, none, live, answers)
    {
      FilterSnoc(chunks, i, HasChoice());
      if chunks[i].Chunk? {
        var chunk := chunks[i];
        accumulated := Accumulate(accumulated, chunk, live);
        var calls, ok := [], true;
        if chunk.finish == Some(ToolCalls) {
          calls, ok := Emit(loads, none, accumulated);
        }
        if !ok {
          BreaksOff(loads, none, chunks, i, answers);
          raised := true;
          return;
        }
        var answer := ChatChunk(chunk.content, calls, chunk.finish);
        assert Answers(loads, none, live + [chunk], answer);
        AnsweredOneMore(loads, none, live, answers, chunk, answer);
        live := live + [chunk];
        answers := answers + [answer];
      }
    }
    assert chunks[..|chunks|] == chunks;
  }

  lemma {:induction false} BreaksOff<A>(loads: string -> Option<A>, none: A, chunks: seq<Chunk>, i: nat,
          answers: seq<ChatChunk<A>>)
    requires i < |chunks| && chunks[i].Chunk?
    requires |answers| == |Filter(chunks[..i], HasChoice())|
    requires Answered(loads, none, Filter(chunks[..i], HasChoice()), answers)
    requires chunks[i].finish == Some(ToolCalls)
    requires !AllParse(loads, SlotsAfter(Filter(chunks[..i], HasChoice()) + [chunks[i]]))
    ensures StreamEnds(loads, none, Filter(chunks, HasChoice()), answers, true)
  {
    var before, rest := Filter(chunks[..i], HasChoice()), Filter(chunks[i + 1..], HasChoice());
    FilterSplit(chunks, HasChoice(), i + 1);
    FilterSnoc(chunks, i, HasChoice());
    var live := Filter(chunks, HasChoice());
    assert live == before + ([chunks[i]] + rest);
    assert live[..|answers| + 1] == before + [chunks[i]];
    AllHaveChoice(chunks[i + 1..]);
    AnsweredMore(loads, none, before, answers, [chunks[i]] + rest);
  }

  /** One chunk's fragments, one after the other. */
  method Accumulate(slots: seq<Slot>, chunk: Chunk, ghost before: seq<Chunk>) returns (accumulated: seq<Slot>)
    requires chunk.Chunk? && slots == SlotsAfter(before)
    ensures accumulated == SlotsAfter(before + [chunk])
  {
    accumulated := slots;
    assert Concat(Map(before, FragmentsOf())) + chunk.fragments[..0] == Concat(Map(before, FragmentsOf()));
    for k := 0 to |chunk.fragments|
      invariant accumulated == FeedAll(Concat(Map(before, FragmentsOf())) + chunk.fragments[..k])
    {
      accumulated := Feed(accumulated, chunk.fragments[k]);
      FeedChunk(before, chunk, k);
    }
    assert chunk.fragments[..|chunk.fragments|] == chunk.fragments;
    SlotsAfterChunk(before, chunk);
  }

  /** All slots as tool calls, in dictionary order; stops at arguments that do not parse. */
  method Emit<A>(loads: string -> Option<A>, none: A, slots: seq<Slot>) returns (calls: seq<ToolCall<A>>, ok: bool)
    ensures ok <==> AllParse(loads, slots)
    ensures ok ==> calls == EmittedCalls(loads, none, slots)
  {
    calls := [];
    for i := 0 to |slots|
      invariant |calls| == i
      invariant forall j :: 0 <= j < i ==> Parses(loads, slots[j]) && calls[j] == Emitted(loads, none, slots[j])
    {
      var slot := slots[i];
      if slot.arguments != "" && loads(slot.arguments).None? {
        assert !Parses(loads, slots[i]);
        return calls, false;
      }
      var arguments := if slot.arguments == "" then none else loads(slot.arguments).value;
      calls := calls + [ToolCall(slot.id, slot.name, arguments)];
    }
    ok := true;
  }

  /** No call is emitted before a tool-call finish, and the text passed on is the text received. */
  lemma {:induction false} NothingEarlyAndTextKept<A>(loads: string -> Option<A>, none: A, live: seq<Chunk>,
          answers: seq<ChatChunk<A>>)
    requires Answered(loads, none, live, answers) && |answers| == |live|
    ensures forall j :: 0 <= j < |answers| && live[j].finish != Some(ToolCalls) ==> answers[j].deltaToolCalls == []
    ensures Concat(Map(answers, (a: ChatChunk<A>) => a.deltaContent)) == Concat(Map(live, ContentOf()))
  {
    var contentOf := (a: ChatChunk<A>) => a.deltaContent;
    forall j | 0 <= j < |answers|
      ensures contentOf(answers[j]) == ContentOf()(live[j])
      ensures live[j].finish != Some(ToolCalls) ==> answers[j].deltaToolCalls == []
    {
      assert live[..j + 1][j] == live[j];
      assert Answers(loads, none, live[..j + 1], answers[j]);
    }
    assert Map(answers, contentOf) == Map(live, ContentOf());
  }

  /** The fragments of the chunks, in order. */
  ghost function Received(live: seq<Chunk>): seq<Fragment>
    requires forall j :: 0 <= j < |live| ==> live[j].Chunk?
  {
    if live == [] then [] else Received(live[..|live| - 1]) + live[|live| - 1].fragments
  }

  lemma {:induction false} ReceivedIsConcat(live: seq<Chunk>)
    requires forall j :: 0 <= j < |live| ==> live[j].Chunk?
    ensures Concat(Map(live, FragmentsOf())) == Received(live)
  {
    if live != [] {
      var front, last := live[..|live| - 1], live[|live| - 1];
      assert live == front + [last];
      ReceivedIsConcat(front);
      MapConcat(front, [last], FragmentsOf());
      assert Map([last], FragmentsOf()) == [last.fragments];
      ConcatSnoc(Map(front, FragmentsOf()), last.fragments);
    }
  }

  /** What a slot of the model's call comes out as. */
  lemma {:induction false} SlotComesOut<A>(loads: string -> Option<A>, none: A, call: Call)
    ensures Parses(loads, SlotOf(call)) <==> call.arguments == "" || loads(call.arguments).Some?
    ensures Parses(loads, SlotOf(call)) ==>
              var emitted := Emitted(loads, none, SlotOf(call));
              && emitted.id == call.id && emitted.name == call.name
              && (if call.arguments == "" then emitted.arguments == none
                  else loads(call.arguments) == Some(emitted.arguments))
  {
  }

  /** The k-th call passed on is the i-th one the model made: under the identifier of its first
      fragment, or a generated one if that is empty; with its name; and with its arguments decoded,
      `none` standing for an empty text. */
  ghost predicate PassedOn<A>(loads: string -> Option<A>, none: A, call: Call, first: Fragment, emitted: ToolCall<A>) {
    && emitted.id == (if first.id != "" then first.id else first.generated)
    && emitted.name == call.name
    && (call.arguments == "" ==> emitted.arguments == none)
    && (call.arguments != "" ==> loads(call.arguments) == Some(emitted.arguments))
  }

  /** Some call of that index is passed on as `emitted`. */
  ghost predicate CallIsPassedOn<A>(loads: string -> Option<A>, none: A, calls: seq<Call>, pieces: seq<seq<Fragment>>,
          index: int, emitted: ToolCall<A>)
  {
    exists i :: 0 <= i < |calls| && i < |pieces| && pieces[i] != [] && calls[i].index == index
      && PassedOn(loads, none, calls[i], pieces[i][0], emitted)
  }

  lemma {:induction false} SlotIsPassedOn<A>(loads: string -> Option<A>, none: A, calls: seq<Call>,
          pieces: seq<seq<Fragment>>, slot: Slot)
    requires |pieces| == |calls| && forall i :: 0 <= i < |calls| ==> Cuts(calls[i], pieces[i])
    requires Parses(loads, slot) && exists i :: 0 <= i < |calls| && slot == SlotOf(calls[i])
    ensures CallIsPassedOn(loads, none, calls, pieces, slot.index, Emitted(loads, none, slot))
  {
    var i :| 0 <= i < |calls| && slot == SlotOf(calls[i]);
    assert Cuts(calls[i], pieces[i]);
    SlotComesOut(loads, none, calls[i]);
  }

  lemma {:induction false} SlotsArePassedOn<A>(loads: string -> Option<A>, none: A, calls: seq<Call>,
          pieces: seq<seq<Fragment>>, fragments: seq<Fragment>)
    requires Interleaves(calls, pieces, fragments) && AllParse(loads, FeedAll(fragments))
    ensures
      var order, emitted := FirstAppearance(fragments), EmittedCalls(loads, none, FeedAll(fragments));
      && |emitted| == |order|
      && (forall i :: 0 <= i < |calls| ==> calls[i].index in order)
      && (forall k :: 0 <= k < |order| ==> CallIsPassedOn(loads, none, calls, pieces, order[k], emitted[k]))
  {
    ReassemblyUndoesFragmentation(calls, pieces, fragments);
    var slots, order := FeedAll(fragments), FirstAppearance(fragments);
    forall k | 0 <= k < |order|
      ensures CallIsPassedOn(loads, none, calls, pieces, order[k], EmittedCalls(loads, none, slots)[k])
    {
      SlotIsPassedOn(loads, none, calls, pieces, slots[k]);
    }
  }

  /** So the chunk that finishes with tool calls carries exactly the calls the model made, in
      order of first appearance, however they were cut up and interleaved. */
  lemma {:induction false} FinishEmitsTheCalls<A>(loads: string -> Option<A>, none: A, live: seq<Chunk>,
          answers: seq<ChatChunk<A>>, raised: bool, j: nat, calls: seq<Call>, pieces: seq<seq<Fragment>>)
    requires StreamEnds(loads, none, live, answers, raised) && j < |answers|
    requires live[j].finish == Some(ToolCalls)
    requires Interleaves(calls, pieces, Received(live[..j + 1]))
    ensures
      var order, emitted := FirstAppearance(Received(live[..j + 1])), answers[j].deltaToolCalls;
      && |emitted| == |order|
      && (forall i :: 0 <= i < |calls| ==> calls[i].index in order)
      && (forall k :: 0 <= k < |order| ==> CallIsPassedOn(loads, none, calls, pieces, order[k], emitted[k]))
  {
    ReceivedIsConcat(live[..j + 1]);
    assert Answers(loads, none, live[..j + 1], answers[j]);
    SlotsArePassedOn(loads, none, calls, pieces, Received(live[..j + 1]));
  }

  lemma {:induction false} BreaksOffAt<A>(loads: string -> Option<A>, none: A, live: seq<Chunk>,
          answers: seq<ChatChunk<A>>, raised: bool, j: nat)
    requires StreamEnds(loads, none, live, answers, raised) && j <= |answers| && j < |live|
    requires live[j].finish == Some(ToolCalls)
    ensures raised && |answers| == j <==> !AllParse(loads, FeedAll(Received(live[..j + 1])))
  {
    ReceivedIsConcat(live[..j + 1]);
    if j < |answers| {
      assert Answers(loads, none, live[..j + 1], answers[j]);
    }
  }

  /** And at such a chunk the stream breaks off exactly if some call has arguments that do not
      decode. */
  lemma {:induction false} BreaksOffIff<A>(loads: string -> Option<A>, none: A, live: seq<Chunk>,
          answers: seq<ChatChunk<A>>, raised: bool, j: nat, calls: seq<Call>, pieces: seq<seq<Fragment>>)
    requires StreamEnds(loads, none, live, answers, raised) && j <= |answers| && j < |live|
    requires live[j].finish == Some(ToolCalls)
    requires Interleaves(calls, pieces, Received(live[..j + 1]))
    ensures raised && |answers| == j
       <==> exists i :: 0 <= i < |calls| && calls[i].arguments != "" && loads(calls[i].arguments).None?
  {
    var slots := FeedAll(Received(live[..j + 1]));
    ReassemblyUndoesFragmentation(calls, pieces, Received(live[..j + 1]));
    AllParseIff(loads, none, calls, slots);
    BreaksOffAt(loads, none, live, answers, raised, j);
  }

  lemma {:induction false} AllParseIff<A>(loads: string -> Option<A>, none: A, calls: seq<Call>, slots: seq<Slot>)
    requires forall i :: 0 <= i < |calls| ==> SlotOf(calls[i]) in slots
    requires forall k :: 0 <= k < |slots| ==> exists i :: 0 <= i < |calls| && slots[k] == SlotOf(calls[i])
    ensures AllParse(loads, slots)
       <==> forall i :: 0 <= i < |calls| ==> calls[i].arguments == "" || loads(calls[i].arguments).Some?
  {
    forall i | 0 <= i < |calls|
      ensures Parses(loads, SlotOf(calls[i])) <==> calls[i].arguments == "" || loads(calls[i].arguments).Some?
    {
      SlotComesOut(loads, none, calls[i]);
    }
  }

  /** Everything else in the answers is passed through: text, finish, and no calls before a finish
      with tool calls. */
  lemma {:induction false} RestIsPassedThrough<A>(loads: string -> Option<A>, none: A, live: seq<Chunk>,
          answers: seq<ChatChunk<A>>, raised: bool, j: nat)
    requires StreamEnds(loads, none, live, answers, raised) && j < |answers|
    ensures answers[j].deltaContent == live[j].content && answers[j].finish == live[j].finish
    ensures live[j].finish != Some(ToolCalls) ==> answers[j].deltaToolCalls == []
  {
    assert Answers(loads, none, live[..j + 1], answers[j]);
  }
}
