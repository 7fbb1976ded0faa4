/**
 Duplicate pruning (agentcook-core/src/agentcook_core/pruning.py): a pass over the history with
 two trackers that drops repeated user texts, repeated tool calls and empty assistant turns.
 */
module DuplicatePruning {
  import opened Wrappers
  import opened Seqs
  import opened Messages

  /** The printed form of one call; `repr` stands for Python's repr of the sorted items. */
  function CallText(repr: Arguments -> string, tc: ToolCall): string {
    tc.name + "|" + if tc.arguments == [] then "{}" else repr(tc.arguments)
  }

  function Signature(repr: Arguments -> string, calls: seq<ToolCall>): string {
    if calls == [] then ""
    else if |calls| == 1 then CallText(repr, calls[0])
    else Signature(repr, calls[..|calls| - 1]) + "||" + CallText(repr, calls[|calls| - 1])
  }

  /** How a signature is computed; the pass uses it only to compare turns. */
  type Signer = seq<ToolCall> -> string

  /** The code's choice. */
  function CodeSigner(repr: Arguments -> string): Signer {
    (calls: seq<ToolCall>) => Signature(repr, calls)
  }

  /** That choice does not tell all turns apart: a tool name may contain the separators, so one
      call can carry the signature of two. */
  lemma {:induction false} SignaturesCollide(repr: Arguments -> string, i: string, j: string, k: string)
    ensures Signature(repr, [ToolCall(i, "a|{}||b", [])])
         == Signature(repr, [ToolCall(j, "a", []), ToolCall(k, "b", [])])
  {
    var a, b := ToolCall(j, "a", []), ToolCall(k, "b", []);
    assert [a, b][..1] == [a];
    assert Signature(repr, [a, b]) == Signature(repr, [a]) + "||" + CallText(repr, b);
    assert "a|{}||b" + "|" + "{}" == "a" + "|" + "{}" + "||" + ("b" + "|" + "{}");
  }

  // ---- when signatures are faithful ---------------------------------------------------------------

  /** The printed arguments of a call. */
  function Printed(repr: Arguments -> string, tc: ToolCall): string {
    if tc.arguments == [] then "{}" else repr(tc.arguments)
  }

  /** What a signature is meant to tell of a call: its name and its printed arguments. */
  function Essence(repr: Arguments -> string): ToolCall -> (string, string) {
    (tc: ToolCall) => (tc.name, Printed(repr, tc))
  }

  predicate PlainNames(calls: seq<ToolCall>) {
    forall i :: 0 <= i < |calls| ==> '|' !in calls[i].name
  }

  /** The printed arguments do not go on as if another call followed. */
  predicate EndsBefore(x: string, y: string) {
    !(x + "|" <= y)
  }

  /** Names do not contain the separator, and no printed arguments of one list start with those of
      the other and a separator. */
  predicate Separable(repr: Arguments -> string, a: seq<ToolCall>, b: seq<ToolCall>) {
    && PlainNames(a) && PlainNames(b)
    && forall i, j :: 0 <= i < |a| && 0 <= j < |b| ==>
         EndsBefore(Printed(repr, a[i]), Printed(repr, b[j])) && EndsBefore(Printed(repr, b[j]), Printed(repr, a[i]))
  }

  /** Printed arguments end where their brackets close: none goes on as another one does. */
  ghost predicate SelfDelimiting(repr: Arguments -> string) {
    forall x: ToolCall, y: ToolCall :: !(Printed(repr, x) < Printed(repr, y))
  }

  /** For such a printer names alone decide, whatever separators the arguments contain. */
  lemma {:induction false} NamesSuffice(repr: Arguments -> string, a: seq<ToolCall>, b: seq<ToolCall>)
    requires SelfDelimiting(repr) && PlainNames(a) && PlainNames(b)
    ensures Separable(repr, a, b)
  {
    forall x: ToolCall, y: ToolCall
      ensures EndsBefore(Printed(repr, x), Printed(repr, y))
    {
      assert !(Printed(repr, x) < Printed(repr, y));
    }
  }

  lemma {:induction false} GoesOn(x: string, y: string)
    ensures EndsBefore(x, y) || '|' in y
  {
    if x + "|" <= y {
      assert y[|x|] == (x + "|")[|x|];
    }
  }

  /** And for any printer it is enough that the arguments contain no separator either. */
  lemma {:induction false} NoSeparatorSuffices(repr: Arguments -> string, a: seq<ToolCall>, b: seq<ToolCall>)
    requires PlainNames(a) && PlainNames(b)
    requires forall x :: x in a + b ==> '|' !in Printed(repr, x)
    ensures Separable(repr, a, b)
  {
    forall x, y | x in a + b && y in a + b
      ensures EndsBefore(Printed(repr, x), Printed(repr, y))
    {
      GoesOn(Printed(repr, x), Printed(repr, y));
    }
  }

  /** What follows the first call. */
  function Rest(repr: Arguments -> string, calls: seq<ToolCall>): string
    requires calls != []
  {
    if |calls| == 1 then "" else "||" + Signature(repr, calls[1..])
  }

  lemma {:induction false} RestGrows(repr: Arguments -> string, calls: seq<ToolCall>)
    requires |calls| > 1
    ensures Rest(repr, calls) == Rest(repr, calls[..|calls| - 1]) + ("||" + CallText(repr, calls[|calls| - 1]))
  {
    var front, rest, text := calls[..|calls| - 1], calls[1..], CallText(repr, calls[|calls| - 1]);
    if |calls| > 2 {
      assert rest[..|rest| - 1] == front[1..] && rest[|rest| - 1] == calls[|calls| - 1];
      var inner := Signature(repr, front[1..]);
      assert Signature(repr, rest) == inner + "||" + text;
      assert "||" + (inner + "||" + text) == "||" + inner + ("||" + text);
    }
  }

  lemma {:induction false} JoinsAlike(name: string, printed: string, rest: string, text: string)
    ensures name + ['|'] + (printed + rest) + "||" + text == name + ['|'] + (printed + (rest + ("||" + text)))
    ensures name + "|" + printed == name + ['|'] + (printed + "")
  {
  }

  /** A signature read from the front. */
  lemma {:induction false} SignatureFromFront(repr: Arguments -> string, calls: seq<ToolCall>)
    requires calls != []
    ensures Signature(repr, calls) == calls[0].name + ['|'] + (Printed(repr, calls[0]) + Rest(repr, calls))
    decreases |calls|
  {
    var name, printed, text := calls[0].name, Printed(repr, calls[0]), CallText(repr, calls[|calls| - 1]);
    if |calls| == 1 {
      JoinsAlike(name, printed, "", text);
    } else {
      var front := calls[..|calls| - 1];
      SignatureFromFront(repr, front);
      RestGrows(repr, calls);
      assert Signature(repr, calls) == Signature(repr, front) + "||" + text;
      JoinsAlike(name, printed, Rest(repr, front), text);
    }
  }

  lemma {:induction false} EmptySignature(repr: Arguments -> string, calls: seq<ToolCall>)
    ensures Signature(repr, calls) == "" <==> calls == []
  {
    if calls != [] {
      SignatureFromFront(repr, calls);
    }
  }

  /** Two printed arguments in front of equal text are equal when neither goes on like a new call. */
  lemma {:induction false} FirstArguments(x: string, r: string, y: string, s: string)
    requires x + r == y + s && EndsBefore(x, y) && EndsBefore(y, x)
    requires (r == "" || "||" <= r) && (s == "" || "||" <= s)
    ensures x == y && r == s
  {
    if |x| < |y| {
      LongerGoesOn(x, r, y, s);
    } else if |y| < |x| {
      LongerGoesOn(y, s, x, r);
    } else {
      assert x == (x + r)[..|x|] && y == (y + s)[..|x|] && r == (x + r)[|x|..] && s == (y + s)[|x|..];
    }
  }

  lemma {:induction false} LongerGoesOn(x: string, r: string, y: string, s: string)
    requires x + r == y + s && |x| < |y|
    requires (r == "" || "||" <= r) && (s == "" || "||" <= s)
    ensures !EndsBefore(x, y)
  {
    var all := x + r;
    assert |r| > 0 && r[0] == '|';
    assert y == all[..|y|] && all[|x|] == '|';
    assert x + "|" == y[..|x| + 1];
  }

  lemma {:induction false} FirstCallsAgree(repr: Arguments -> string, a: seq<ToolCall>, b: seq<ToolCall>)
    requires a != [] && b != [] && Separable(repr, a, b)
    requires Signature(repr, a) == Signature(repr, b)
    ensures a[0].name == b[0].name && Printed(repr, a[0]) == Printed(repr, b[0])
    ensures Rest(repr, a) == Rest(repr, b)
  {
    SignatureFromFront(repr, a);
    SignatureFromFront(repr, b);
    FirstSeparator(a[0].name, Printed(repr, a[0]) + Rest(repr, a), b[0].name, Printed(repr, b[0]) + Rest(repr, b), '|');
    FirstArguments(Printed(repr, a[0]), Rest(repr, a), Printed(repr, b[0]), Rest(repr, b));
  }

  lemma {:induction false} RestsAgree(repr: Arguments -> string, a: seq<ToolCall>, b: seq<ToolCall>)
    requires a != [] && b != [] && Rest(repr, a) == Rest(repr, b)
    ensures |a| == 1 <==> |b| == 1
    ensures Signature(repr, a[1..]) == Signature(repr, b[1..])
  {
    if |a| > 1 && |b| > 1 {
      assert Signature(repr, a[1..]) == Rest(repr, a)[2..];
      assert Signature(repr, b[1..]) == Rest(repr, b)[2..];
    }
  }

  lemma {:induction false} FewerAreSeparable(repr: Arguments -> string, a: seq<ToolCall>, b: seq<ToolCall>)
    requires a != [] && b != [] && Separable(repr, a, b)
    ensures Separable(repr, a[1..], b[1..])
  {
  }

  /** Then equal signatures mean the same calls in the same order, identifiers aside. */
  lemma {:induction false} SignatureIsFaithful(repr: Arguments -> string, a: seq<ToolCall>, b: seq<ToolCall>)
    requires Separable(repr, a, b)
    requires Signature(repr, a) == Signature(repr, b)
    ensures Map(a, Essence(repr)) == Map(b, Essence(repr))
    decreases |a|
  {
    EmptySignature(repr, a);
    EmptySignature(repr, b);
    if a != [] {
      FirstCallsAgree(repr, a, b);
      RestsAgree(repr, a, b);
      FewerAreSeparable(repr, a, b);
      SignatureIsFaithful(repr, a[1..], b[1..]);
      MapFirst(a, Essence(repr));
      MapFirst(b, Essence(repr));
    }
  }

  /** An assistant turn that carries tool calls and no text. */
  predicate CallOnly(m: Message) {
    m.role == Assistant && m.toolCalls != [] && m.content == ""
  }

  predicate EmptyTurn(m: Message) {
    m.role == Assistant && m.toolCalls == [] && m.content == ""
  }

  datatype Tracker = Tracker(lastSig: Option<string>, lastUser: Option<string>)

  const FRESH := Tracker(None, None)

  /** Whether an unprotected message is dropped. */
  predicate Drops(sign: Signer, t: Tracker, m: Message) {
    || EmptyTurn(m)
    || (m.role == User && t.lastUser == Some(m.content))
    || (CallOnly(m) && t.lastSig == Some(sign(m.toolCalls)))
  }

  /** The trackers after a message that was kept. */
  function Track(sign: Signer, t: Tracker, m: Message): Tracker {
    if m.role == User then Tracker(None, Some(m.content))
    else if CallOnly(m) then t.(lastSig := Some(sign(m.toolCalls)))
    else FRESH
  }

  datatype Scanned = Scanned(kept: seq<Message>, tracker: Tracker)

  /** The pass over the unprotected part. */
  function Scan(sign: Signer, messages: seq<Message>): Scanned {
    if messages == [] then Scanned([], FRESH) else
      var before, m := Scan(sign, messages[..|messages| - 1]), messages[|messages| - 1];
      if Drops(sign, before.tracker, m) then before
      else Scanned(before.kept + [m], Track(sign, before.tracker, m))
  }

  lemma {:induction false} ScanSnoc(sign: Signer, messages: seq<Message>, m: Message)
    ensures
      var before := Scan(sign, messages);
      Scan(sign, messages + [m]) == if Drops(sign, before.tracker, m) then before
                                    else Scanned(before.kept + [m], Track(sign, before.tracker, m))
  {
    assert (messages + [m])[..|messages|] == messages;
  }

  lemma {:induction false} ScanNext(sign: Signer, messages: seq<Message>, idx: nat)
    requires idx < |messages|
    ensures
      var before, m := Scan(sign, messages[..idx]), messages[idx];
      Scan(sign, messages[..idx + 1]) == if Drops(sign, before.tracker, m) then before
                                         else Scanned(before.kept + [m], Track(sign, before.tracker, m))
  {
    ScanSnoc(sign, messages[..idx], messages[idx]);
    assert messages[..idx + 1] == messages[..idx] + [messages[idx]];
  }

  function Floor(protectRecent: nat, messages: seq<Message>): (floor: nat)
    ensures floor <= |messages|
  {
    if |messages| >= protectRecent then |messages| - protectRecent else 0
  }

  function Pruned(sign: Signer, protectRecent: nat, messages: seq<Message>): seq<Message> {
    if |messages| < 2 then messages else
      var floor := Floor(protectRecent, messages);
      Scan(sign, messages[..floor]).kept + messages[floor..]
  }

  /** One pass over the whole history, protected tail included. */
  method Prune(sign: Signer, protectRecent: nat, messages: seq<Message>) returns (kept: seq<Message>, dropped: nat)
    ensures kept == Pruned(sign, protectRecent, messages)
    ensures dropped + |kept| == |messages|
  {
    if |messages| < 2 {
      return messages, 0;
    }
    var floor := if |messages| >= protectRecent then |messages| - protectRecent else 0;
    kept, dropped := [], 0;
    var lastSig: Option<string>, lastUser: Option<string> := None, None;
    for idx := 0 to |messages|
      invariant dropped + |kept| == idx
      invariant idx <= floor ==> Scan(sign, messages[..idx]) == Scanned(kept, Tracker(lastSig, lastUser))
      invariant idx > floor ==> kept == Scan(sign, messages[..floor]).kept + messages[floor..idx]
    {
      var msg := messages[idx];
      if idx < floor {
        ScanNext(sign, messages, idx);
      } else {
        SliceSnoc(messages, floor, idx);
      }
      if msg.role == System || idx >= floor {
        kept := kept + [msg];
        lastSig, lastUser := None, None;
      } else if msg.role == Assistant && msg.content == "" && msg.toolCalls == [] {
        dropped := dropped + 1;
      } else if msg.role == User && Some(msg.content) == lastUser {
        dropped := dropped + 1;
      } else if msg.role == User {
        lastUser, lastSig := Some(msg.content), None;
        kept := kept + [msg];
      } else if msg.role == Assistant && msg.toolCalls != [] && msg.content == "" {
        var sig := sign(msg.toolCalls);
        if Some(sig) == lastSig {
          dropped := dropped + 1;
        } else {
          lastSig := Some(sig);
          kept := kept + [msg];
        }
      } else {
        lastSig, lastUser := None, None;
        kept := kept + [msg];
      }
    }
    assert messages[floor..|messages|] == messages[floor..];
    if floor == |messages| {
      assert messages[..floor] == messages && messages[floor..] == [];
    }
  }

  // ---- what the trackers know ------------------------------------------------------------------

  /** The kept messages without the call-only turns at their end. */
  function WithoutTrailingCalls(kept: seq<Message>): seq<Message> {
    if kept != [] && CallOnly(kept[|kept| - 1]) then WithoutTrailingCalls(kept[..|kept| - 1]) else kept
  }

  /** The trackers are a function of what was kept: the signature of the last kept message if it
      is call-only, and the text of the last other message if that is a user's. */
  function Remembered(sign: Signer, kept: seq<Message>): Tracker {
    var spoken := WithoutTrailingCalls(kept);
    Tracker(
      if kept != [] && CallOnly(kept[|kept| - 1]) then Some(sign(kept[|kept| - 1].toolCalls)) else None,
      if spoken != [] && spoken[|spoken| - 1].role == User then Some(spoken[|spoken| - 1].content) else None)
  }

  lemma {:induction false} RememberedSnoc(sign: Signer, kept: seq<Message>, m: Message)
    ensures Remembered(sign, kept + [m]) == Track(sign, Remembered(sign, kept), m)
  {
    assert (kept + [m])[..|kept|] == kept;
  }

  lemma {:induction false} TrackersRemember(sign: Signer, messages: seq<Message>)
    ensures Scan(sign, messages).tracker == Remembered(sign, Scan(sign, messages).kept)
  {
    if messages != [] {
      var before, m := Scan(sign, messages[..|messages| - 1]), messages[|messages| - 1];
      TrackersRemember(sign, messages[..|messages| - 1]);
      RememberedSnoc(sign, before.kept, m);
    }
  }

  /** Exactly when an unprotected message is dropped, in terms of what was kept before it: an
      empty assistant turn; a user text equal to the last kept message, call-only turns in
      between not counting; a call-only turn with the signature of the kept message right before
      it. */
  lemma {:induction false} DroppedIff(sign: Signer, messages: seq<Message>, m: Message)
    ensures
      var kept := Scan(sign, messages).kept;
      var spoken := WithoutTrailingCalls(kept);
      Scan(sign, messages + [m]).kept == kept
        <==>
        || EmptyTurn(m)
        || (m.role == User && spoken != []
            && spoken[|spoken| - 1].role == User && spoken[|spoken| - 1].content == m.content)
        || (CallOnly(m) && kept != []
            && CallOnly(kept[|kept| - 1]) && sign(kept[|kept| - 1].toolCalls) == sign(m.toolCalls))
  {
    TrackersRemember(sign, messages);
    ScanSnoc(sign, messages, m);
    var before := Scan(sign, messages);
    assert |before.kept + [m]| != |before.kept|;
    assert Scan(sign, messages + [m]).kept == before.kept <==> Drops(sign, before.tracker, m);
  }

  /** The last turn said before, not counting call-only and empty assistant turns. */
  function LastSpoken(messages: seq<Message>): Option<Message> {
    if messages == [] then None
    else
      var m := messages[|messages| - 1];
      if CallOnly(m) || EmptyTurn(m) then LastSpoken(messages[..|messages| - 1]) else Some(m)
  }

  /** A user text that repeats the last turn said. */
  predicate RepeatsText(messages: seq<Message>, m: Message) {
    var last := LastSpoken(messages);
    m.role == User && last.Some? && last.value.role == User && last.value.content == m.content
  }

  /** The last turn before, not counting empty assistant turns and user texts that repeat. */
  function LastTurn(messages: seq<Message>): Option<Message> {
    if messages == [] then None
    else
      var front, m := messages[..|messages| - 1], messages[|messages| - 1];
      if EmptyTurn(m) || RepeatsText(front, m) then LastTurn(front) else Some(m)
  }

  /** A call-only turn with the signature of the last turn. */
  predicate RepeatsCalls(sign: Signer, messages: seq<Message>, m: Message) {
    var last := LastTurn(messages);
    CallOnly(m) && last.Some? && CallOnly(last.value) && sign(last.value.toolCalls) == sign(m.toolCalls)
  }

  /** The trackers are a function of the input. */
  lemma {:induction false} TrackersFromInput(sign: Signer, messages: seq<Message>)
    ensures
      var spoken, turn := LastSpoken(messages), LastTurn(messages);
      Scan(sign, messages).tracker == Tracker(
        if turn.Some? && CallOnly(turn.value) then Some(sign(turn.value.toolCalls)) else None,
        if spoken.Some? && spoken.value.role == User then Some(spoken.value.content) else None)
  {
    if messages != [] {
      TrackersFromInput(sign, messages[..|messages| - 1]);
    }
  }

  /** Exactly when an unprotected message is dropped, in terms of the input before it. */
  lemma {:induction false} DroppedIffRepeats(sign: Signer, messages: seq<Message>, m: Message)
    ensures Scan(sign, messages + [m]).kept == Scan(sign, messages).kept
       <==> EmptyTurn(m) || RepeatsText(messages, m) || RepeatsCalls(sign, messages, m)
  {
    TrackersFromInput(sign, messages);
    ScanSnoc(sign, messages, m);
    var before := Scan(sign, messages);
    assert |before.kept + [m]| != |before.kept|;
  }

  /** A user's text before place `n` with nothing but call-only and empty assistant turns in between. */
  ghost predicate JustSaid(messages: seq<Message>, n: nat, text: string) {
    exists i :: 0 <= i < n <= |messages| && messages[i].role == User && messages[i].content == text
      && forall j :: i < j < n ==> messages[j].role == Assistant && messages[j].content == ""
  }

  /** Call-only turns with the signature before place `n`, with nothing but empty assistant turns and
      user texts said just before in between. */
  ghost predicate JustCalled(sign: Signer, messages: seq<Message>, n: nat, signature: string) {
    exists i :: 0 <= i < n <= |messages|
      && messages[i].role == Assistant && messages[i].content == "" && messages[i].toolCalls != []
      && sign(messages[i].toolCalls) == signature
      && forall j :: i < j < n ==> PassesUnnoticed(messages, j)
  }

  ghost predicate PassesUnnoticed(messages: seq<Message>, j: nat) {
    && j < |messages|
    && if messages[j].role == Assistant then messages[j].content == "" && messages[j].toolCalls == []
       else messages[j].role == User && JustSaid(messages, j, messages[j].content)
  }

  lemma {:induction false} SaidBefore(messages: seq<Message>, n: nat, text: string)
    requires 0 < n <= |messages| && messages[n - 1].role == Assistant && messages[n - 1].content == ""
    ensures JustSaid(messages, n, text) <==> JustSaid(messages, n - 1, text)
  {
    if JustSaid(messages, n - 1, text) {
      var i :| 0 <= i < n - 1 && messages[i].role == User && messages[i].content == text
        && forall j :: i < j < n - 1 ==> messages[j].role == Assistant && messages[j].content == "";
      assert messages[i].role == User;
    }
    if JustSaid(messages, n, text) {
      var i :| 0 <= i < n && messages[i].role == User && messages[i].content == text
        && forall j :: i < j < n ==> messages[j].role == Assistant && messages[j].content == "";
      assert i < n - 1 && messages[i].role == User;
    }
  }

  lemma {:induction false} SpokenIsJustSaid(messages: seq<Message>, n: nat, text: string)
    requires n <= |messages|
    ensures JustSaid(messages, n, text)
       <==> var last := LastSpoken(messages[..n]);
            last.Some? && last.value.role == User && last.value.content == text
  {
    if n > 0 {
      var m := messages[n - 1];
      assert messages[..n][..n - 1] == messages[..n - 1];
      if CallOnly(m) || EmptyTurn(m) {
        SpokenIsJustSaid(messages, n - 1, text);
        SaidBefore(messages, n, text);
      } else if m.role == User && m.content == text {
        assert messages[n - 1].role == User;
      }
    }
  }

  lemma {:induction false} TurnIsJustCalled(sign: Signer, messages: seq<Message>, n: nat, signature: string)
    requires n <= |messages|
    ensures JustCalled(sign, messages, n, signature)
       <==> var last := LastTurn(messages[..n]);
            last.Some? && CallOnly(last.value) && sign(last.value.toolCalls) == signature
  {
    if n > 0 {
      var m := messages[n - 1];
      assert messages[..n][..n - 1] == messages[..n - 1];
      TurnIsJustCalled(sign, messages, n - 1, signature);
      SpokenIsJustSaid(messages, n - 1, m.content);
      assert PassesUnnoticed(messages, n - 1) <==> EmptyTurn(m) || RepeatsText(messages[..n - 1], m);
      if PassesUnnoticed(messages, n - 1) {
        assert !CallOnly(m);
        CalledBefore(sign, messages, n, signature);
      } else if CallOnly(m) && sign(m.toolCalls) == signature {
        assert messages[n - 1].role == Assistant;
      }
    }
  }

  lemma {:induction false} CalledBefore(sign: Signer, messages: seq<Message>, n: nat, signature: string)
    requires 0 < n <= |messages| && PassesUnnoticed(messages, n - 1)
    ensures JustCalled(sign, messages, n, signature) <==> JustCalled(sign, messages, n - 1, signature)
  {
    if JustCalled(sign, messages, n - 1, signature) {
      var i :| 0 <= i < n - 1
        && messages[i].role == Assistant && messages[i].content == "" && messages[i].toolCalls != []
        && sign(messages[i].toolCalls) == signature
        && forall j :: i < j < n - 1 ==> PassesUnnoticed(messages, j);
      assert messages[i].role == Assistant;
    }
    if JustCalled(sign, messages, n, signature) {
      var i :| 0 <= i < n
        && messages[i].role == Assistant && messages[i].content == "" && messages[i].toolCalls != []
        && sign(messages[i].toolCalls) == signature
        && forall j :: i < j < n ==> PassesUnnoticed(messages, j);
      assert i != n - 1;
      assert messages[i].role == Assistant;
    }
  }

  /** The same, place by place: dropped are the empty assistant turns, the user texts just said, and
      the call-only turns whose calls were just made; everything else stays. */
  lemma {:induction false} DroppedAtIff(sign: Signer, messages: seq<Message>, n: nat)
    requires n < |messages|
    ensures
      var m, kept := messages[n], Scan(sign, messages[..n]).kept;
      var dropped :=
        || (m.role == Assistant && m.content == "" && m.toolCalls == [])
        || (m.role == User && JustSaid(messages, n, m.content))
        || (m.role == Assistant && m.content == "" && m.toolCalls != []
            && JustCalled(sign, messages, n, sign(m.toolCalls)));
      Scan(sign, messages[..n + 1]).kept == if dropped then kept else kept + [m]
  {
    var m := messages[n];
    ScanNext(sign, messages, n);
    TrackersFromInput(sign, messages[..n]);
    SpokenIsJustSaid(messages, n, m.content);
    TurnIsJustCalled(sign, messages, n, sign(m.toolCalls));
  }

  lemma {:induction false} OneSignatureOneTurn(sign: Signer, first: Message, second: Message)
    requires CallOnly(first) && CallOnly(second) && sign(first.toolCalls) == sign(second.toolCalls)
    ensures Pruned(sign, 0, [first, second]) == [first]
  {
    ScanSnoc(sign, [], first);
    ScanSnoc(sign, [first], second);
    assert [] + [first] == [first] && [first] + [second] == [first, second];
    assert [first, second][..2] == [first, second] && [first, second][2..] == [];
  }

  /** A collision costs a turn: the second of these two turns repeats nothing and is dropped. */
  lemma {:induction false} CollisionDropsATurn(repr: Arguments -> string)
    ensures
      var first := Message(Assistant, "", None, [ToolCall("1", "a|{}||b", [])], None, map[]);
      var second := Message(Assistant, "", None, [ToolCall("2", "a", []), ToolCall("3", "b", [])], None, map[]);
      && Map(first.toolCalls, Essence(repr)) != Map(second.toolCalls, Essence(repr))
      && Pruned(CodeSigner(repr), 0, [first, second]) == [first]
  {
    var first := Message(Assistant, "", None, [ToolCall("1", "a|{}||b", [])], None, map[]);
    var second := Message(Assistant, "", None, [ToolCall("2", "a", []), ToolCall("3", "b", [])], None, map[]);
    assert |Map(first.toolCalls, Essence(repr))| != |Map(second.toolCalls, Essence(repr))|;
    SignaturesCollide(repr, "1", "2", "3");
    OneSignatureOneTurn(CodeSigner(repr), first, second);
  }

  /** Where calls are separable that cannot happen: a call-only turn is dropped exactly when it makes
      the calls of the last turn again. */
  lemma {:induction false} FaithfulDropsRepeatCalls(repr: Arguments -> string, messages: seq<Message>, m: Message)
    requires CallOnly(m)
    requires forall i :: 0 <= i < |messages| ==> Separable(repr, messages[i].toolCalls, m.toolCalls)
    ensures
      var last := LastTurn(messages);
      Scan(CodeSigner(repr), messages + [m]).kept == Scan(CodeSigner(repr), messages).kept
      <==>
      && last.Some? && CallOnly(last.value)
      && Map(last.value.toolCalls, Essence(repr)) == Map(m.toolCalls, Essence(repr))
  {
    DroppedIffRepeats(CodeSigner(repr), messages, m);
    var last := LastTurn(messages);
    if last.Some? {
      LastTurnIsIn(messages);
      var calls := last.value.toolCalls;
      if Signature(repr, calls) == Signature(repr, m.toolCalls) {
        SignatureIsFaithful(repr, calls, m.toolCalls);
      } else if Map(calls, Essence(repr)) == Map(m.toolCalls, Essence(repr)) {
        SignatureOfEssences(repr, calls, m.toolCalls);
      }
    }
  }

  lemma {:induction false} LastTurnIsIn(messages: seq<Message>)
    requires LastTurn(messages).Some?
    ensures LastTurn(messages).value in messages
  {
    var front, m := messages[..|messages| - 1], messages[|messages| - 1];
    if EmptyTurn(m) || RepeatsText(front, m) {
      LastTurnIsIn(front);
    }
  }

  /** Names and printed arguments determine the signature. */
  lemma {:induction false} SignatureOfEssences(repr: Arguments -> string, a: seq<ToolCall>, b: seq<ToolCall>)
    requires Map(a, Essence(repr)) == Map(b, Essence(repr))
    ensures Signature(repr, a) == Signature(repr, b)
    decreases |a|
  {
    assert |a| == |Map(a, Essence(repr))| == |b|;
    if a != [] {
      var x, y := a[|a| - 1], b[|b| - 1];
      assert Essence(repr)(x) == Map(a, Essence(repr))[|a| - 1] == Essence(repr)(y);
      assert CallText(repr, x) == CallText(repr, y);
      MapCut(a, Essence(repr), |a| - 1);
      MapCut(b, Essence(repr), |b| - 1);
      SignatureOfEssences(repr, a[..|a| - 1], b[..|b| - 1]);
    }
  }

  /** Of two identical user messages in a row it is the first that stays, whatever the docstring
      says about the latest. */
  lemma {:induction false} KeepsTheFirst(sign: Signer, messages: seq<Message>, first: Message, second: Message)
    requires first.role == User == second.role && first.content == second.content
    requires !Drops(sign, Scan(sign, messages).tracker, first)
    ensures Scan(sign, messages + [first, second]).kept == Scan(sign, messages).kept + [first]
  {
    ScanSnoc(sign, messages, first);
    ScanSnoc(sign, messages + [first], second);
    assert messages + [first] + [second] == messages + [first, second];
  }

  lemma {:induction false} AfterUserAndCall(sign: Signer, messages: seq<Message>, first: Message, call: Message)
    requires first.role == User && CallOnly(call) && !Drops(sign, Scan(sign, messages).tracker, first)
    ensures Scan(sign, messages + [first] + [call])
         == Scanned(Scan(sign, messages).kept + [first] + [call],
                    Tracker(Some(sign(call.toolCalls)), Some(first.content)))
  {
    ScanSnoc(sign, messages, first);
    ScanSnoc(sign, messages + [first], call);
  }

  /** The two need not be adjacent: a tool call between them does not save the second. */
  lemma {:induction false} DropsAcrossToolCalls(sign: Signer, messages: seq<Message>, first: Message, call: Message,
          second: Message)
    requires first.role == User == second.role && first.content == second.content && CallOnly(call)
    requires !Drops(sign, Scan(sign, messages).tracker, first)
    ensures Scan(sign, messages + [first, call, second]).kept == Scan(sign, messages).kept + [first, call]
  {
    AfterUserAndCall(sign, messages, first, call);
    ScanSnoc(sign, messages + [first] + [call], second);
    assert messages + [first] + [call] + [second] == messages + [first, call, second];
    assert Scan(sign, messages).kept + [first] + [call] == Scan(sign, messages).kept + [first, call];
  }

  /** For example: two user messages with one text and a tool call between them. */
  lemma {:induction false} SecondGreetingIsDropped(sign: Signer)
    ensures
      var first := Message(User, "hello", Some("early"), [], None, map[]);
      var call := Message(Assistant, "", None, [ToolCall("1", "look", [])], None, map[]);
      var second := Message(User, "hello", Some("late"), [], None, map[]);
      Pruned(sign, 0, [first, call, second]) == [first, call]
  {
    var first := Message(User, "hello", Some("early"), [], None, map[]);
    var call := Message(Assistant, "", None, [ToolCall("1", "look", [])], None, map[]);
    var second := Message(User, "hello", Some("late"), [], None, map[]);
    var messages := [first, call, second];
    DropsAcrossToolCalls(sign, [], first, call, second);
    assert [] + messages == messages && [] + [first, call] == [first, call];
    assert messages[..3] == messages && messages[3..] == [];
  }

  // ---- idempotence -------------------------------------------------------------------------------

  lemma {:induction false} ScanIsIdempotent(sign: Signer, messages: seq<Message>)
    ensures Scan(sign, Scan(sign, messages).kept) == Scan(sign, messages)
  {
    if messages != [] {
      var before, m := Scan(sign, messages[..|messages| - 1]), messages[|messages| - 1];
      ScanIsIdempotent(sign, messages[..|messages| - 1]);
      if !Drops(sign, before.tracker, m) {
        assert (before.kept + [m])[..|before.kept|] == before.kept;
      }
    }
  }

  lemma {:induction false} ScanShrinks(sign: Signer, messages: seq<Message>)
    ensures |Scan(sign, messages).kept| <= |messages|
  {
    if messages != [] {
      ScanShrinks(sign, messages[..|messages| - 1]);
    }
  }

  /** A second pass drops nothing. */
  lemma {:induction false} PruneIsIdempotent(sign: Signer, protectRecent: nat, messages: seq<Message>)
    ensures
      var once := Pruned(sign, protectRecent, messages);
      Pruned(sign, protectRecent, once) == once
  {
    if |messages| >= 2 {
      var floor := Floor(protectRecent, messages);
      ScanShrinks(sign, messages[..floor]);
      ScanIsIdempotent(sign, messages[..floor]);
      PrunedOfParts(sign, protectRecent, Scan(sign, messages[..floor]).kept, messages[floor..]);
    }
  }

  /** A stable front before a protected tail is left alone. */
  lemma {:induction false} PrunedOfParts(sign: Signer, protectRecent: nat, kept: seq<Message>, tail: seq<Message>)
    requires Scan(sign, kept).kept == kept
    requires |tail| == protectRecent || kept == []
    requires |tail| <= protectRecent
    ensures Pruned(sign, protectRecent, kept + tail) == kept + tail
  {
    var all := kept + tail;
    assert Floor(protectRecent, all) == |kept|;
    assert all[..|kept|] == kept && all[|kept|..] == tail;
  }

  // ---- what survives -------------------------------------------------------------------------------

  /** `a` is `b` with some elements left out. */
  predicate Subsequence(a: seq<Message>, b: seq<Message>) {
    if a == [] then true
    else if b == [] then false
    else if a[|a| - 1] == b[|b| - 1] && Subsequence(a[..|a| - 1], b[..|b| - 1]) then true
    else Subsequence(a, b[..|b| - 1])
  }

  lemma {:induction false} ScanIsSubsequence(sign: Signer, messages: seq<Message>)
    ensures Subsequence(Scan(sign, messages).kept, messages)
  {
    if messages != [] {
      var before, m := Scan(sign, messages[..|messages| - 1]), messages[|messages| - 1];
      ScanIsSubsequence(sign, messages[..|messages| - 1]);
      if !Drops(sign, before.tracker, m) {
        assert (before.kept + [m])[..|before.kept|] == before.kept;
      }
    }
  }

  lemma {:induction false} SubsequenceWithTail(a: seq<Message>, b: seq<Message>, tail: seq<Message>)
    requires Subsequence(a, b)
    ensures Subsequence(a + tail, b + tail)
  {
    if tail == [] {
      assert a + tail == a && b + tail == b;
    } else {
      var front := tail[..|tail| - 1];
      SubsequenceWithTail(a, b, front);
      assert (a + tail)[..|a + tail| - 1] == a + front;
      assert (b + tail)[..|b + tail| - 1] == b + front;
    }
  }

  /** Where an element of a subsequence came from; at most as many follow it as did there. */
  lemma {:induction false} SubsequenceOrigin(a: seq<Message>, b: seq<Message>, k: nat) returns (i: nat)
    requires Subsequence(a, b) && k < |a|
    ensures i < |b| && b[i] == a[k] && |a| - k <= |b| - i
  {
    if a[|a| - 1] == b[|b| - 1] && Subsequence(a[..|a| - 1], b[..|b| - 1]) {
      if k == |a| - 1 {
        i := |b| - 1;
      } else {
        i := SubsequenceOrigin(a[..|a| - 1], b[..|b| - 1], k);
      }
    } else {
      i := SubsequenceOrigin(a, b[..|b| - 1], k);
    }
  }

  lemma {:induction false} SubsequenceOfItself(a: seq<Message>)
    ensures Subsequence(a, a)
  {
    if a != [] {
      SubsequenceOfItself(a[..|a| - 1]);
    }
  }

  lemma {:induction false} PrunedIsSubsequence(sign: Signer, protectRecent: nat, messages: seq<Message>)
    ensures Subsequence(Pruned(sign, protectRecent, messages), messages)
  {
    if |messages| < 2 {
      SubsequenceOfItself(messages);
    } else {
      PruneKeepsContent(sign, protectRecent, messages);
    }
  }

  lemma {:induction false} FullSubsequence(a: seq<Message>, b: seq<Message>)
    requires Subsequence(a, b)
    ensures |a| < |b| || a == b
  {
    if a != [] && b != [] {
      if a[|a| - 1] == b[|b| - 1] && Subsequence(a[..|a| - 1], b[..|b| - 1]) {
        FullSubsequence(a[..|a| - 1], b[..|b| - 1]);
        assert a == a[..|a| - 1] + [a[|a| - 1]] && b == b[..|b| - 1] + [b[|b| - 1]];
      } else {
        FullSubsequence(a, b[..|b| - 1]);
      }
    }
  }

  /** The output is shorter than the input, or the input. */
  lemma {:induction false} PrunedShrinks(sign: Signer, protectRecent: nat, messages: seq<Message>)
    ensures
      var out := Pruned(sign, protectRecent, messages);
      |out| < |messages| || out == messages
  {
    PrunedIsSubsequence(sign, protectRecent, messages);
    FullSubsequence(Pruned(sign, protectRecent, messages), messages);
  }

  lemma {:induction false} ScanKeepsSystem(sign: Signer, messages: seq<Message>)
    ensures Filter(Scan(sign, messages).kept, IsSystem()) == Filter(messages, IsSystem())
  {
    if messages != [] {
      var front, m := messages[..|messages| - 1], messages[|messages| - 1];
      ScanKeepsSystem(sign, front);
      assert messages == front + [m];
      FilterConcat(front, [m], IsSystem());
      FilterConcat(Scan(sign, front).kept, [m], IsSystem());
    }
  }

  function UserTexts(messages: seq<Message>): set<string> {
    set m | m in messages && m.role == User :: m.content
  }

  function CallSignatures(sign: Signer, messages: seq<Message>): set<string> {
    set m | m in messages && CallOnly(m) :: sign(m.toolCalls)
  }

  lemma {:induction false} TextsConcat(sign: Signer, a: seq<Message>, b: seq<Message>)
    ensures UserTexts(a + b) == UserTexts(a) + UserTexts(b)
    ensures CallSignatures(sign, a + b) == CallSignatures(sign, a) + CallSignatures(sign, b)
  {
  }

  lemma {:induction false} TrailingCallsHideNoText(kept: seq<Message>)
    ensures forall m :: m in WithoutTrailingCalls(kept) ==> m in kept
  {
    if kept != [] && CallOnly(kept[|kept| - 1]) {
      TrailingCallsHideNoText(kept[..|kept| - 1]);
    }
  }

  lemma {:induction false} ScanKeepsContent(sign: Signer, messages: seq<Message>)
    ensures UserTexts(Scan(sign, messages).kept) == UserTexts(messages)
    ensures CallSignatures(sign, Scan(sign, messages).kept) == CallSignatures(sign, messages)
  {
    if messages != [] {
      var front, m := messages[..|messages| - 1], messages[|messages| - 1];
      var before := Scan(sign, front);
      ScanKeepsContent(sign, front);
      assert messages == front + [m];
      TextsConcat(sign, front, [m]);
      TextsConcat(sign, before.kept, [m]);
      if Drops(sign, before.tracker, m) {
        TrackersRemember(sign, front);
        TrailingCallsHideNoText(before.kept);
        DroppedContentIsKnown(sign, before, m);
      }
    }
  }

  /** What is dropped repeats something that was kept. */
  lemma {:induction false} DroppedContentIsKnown(sign: Signer, before: Scanned, m: Message)
    requires before.tracker == Remembered(sign, before.kept) && Drops(sign, before.tracker, m)
    requires forall x :: x in WithoutTrailingCalls(before.kept) ==> x in before.kept
    ensures UserTexts([m]) <= UserTexts(before.kept)
    ensures CallSignatures(sign, [m]) <= CallSignatures(sign, before.kept)
  {
    var kept, spoken := before.kept, WithoutTrailingCalls(before.kept);
    if m.role == User {
      assert spoken[|spoken| - 1] in kept;
    } else if CallOnly(m) {
      assert kept[|kept| - 1] in kept;
    }
  }

  /** Two neighbours that say the same thing twice. */
  predicate Repeats(sign: Signer, a: Message, b: Message) {
    || (a.role == User == b.role && a.content == b.content)
    || (CallOnly(a) && CallOnly(b) && sign(a.toolCalls) == sign(b.toolCalls))
  }

  lemma {:induction false} ScanLeavesNoRepeats(sign: Signer, messages: seq<Message>)
    ensures
      var kept := Scan(sign, messages).kept;
      && (forall i :: 0 <= i < |kept| ==> !EmptyTurn(kept[i]))
      && (forall i, j :: 0 <= i && j == i + 1 && j < |kept| ==> !Repeats(sign, kept[i], kept[j]))
  {
    if messages != [] {
      ScanLeavesNoRepeats(sign, messages[..|messages| - 1]);
      TrackersRemember(sign, messages[..|messages| - 1]);
    }
  }

  /** The output is what the pass keeps of the front, and the protected tail. */
  lemma {:induction false} PrunedParts(sign: Signer, protectRecent: nat, messages: seq<Message>)
    returns (front: seq<Message>, tail: seq<Message>)
    requires |messages| >= 2
    ensures messages == front + tail && |tail| == Min(protectRecent, |messages|)
    ensures Pruned(sign, protectRecent, messages) == Scan(sign, front).kept + tail
  {
    front, tail := messages[..Floor(protectRecent, messages)], messages[Floor(protectRecent, messages)..];
  }

  lemma {:induction false} EachIsKept(sign: Signer, out: seq<Message>, messages: seq<Message>)
    requires UserTexts(out) == UserTexts(messages) && CallSignatures(sign, out) == CallSignatures(sign, messages)
    ensures forall m :: m in messages && m.role == User ==>
              exists m' :: m' in out && m'.role == User && m'.content == m.content
    ensures forall m :: m in messages && CallOnly(m) ==>
              exists m' :: m' in out && CallOnly(m') && sign(m'.toolCalls) == sign(m.toolCalls)
  {
    forall m | m in messages && m.role == User
      ensures exists m': Message :: m' in out && m'.role == User && m'.content == m.content
    {
      assert m.content in UserTexts(messages);
    }
    forall m | m in messages && CallOnly(m)
      ensures exists m': Message :: m' in out && CallOnly(m') && sign(m'.toolCalls) == sign(m.toolCalls)
    {
      assert sign(m.toolCalls) in CallSignatures(sign, messages);
    }
  }

  /** The user texts and the call signatures of the conversation are all still there. */
  lemma {:induction false} PruneKeepsTexts(sign: Signer, protectRecent: nat, messages: seq<Message>)
    ensures
      var out := Pruned(sign, protectRecent, messages);
      && (forall m :: m in messages && m.role == User ==>
            exists m' :: m' in out && m'.role == User && m'.content == m.content)
      && (forall m :: m in messages && m.role == Assistant && m.content == "" && m.toolCalls != [] ==>
            exists m' :: m' in out && CallOnly(m') && sign(m'.toolCalls) == sign(m.toolCalls))
  {
    if |messages| >= 2 {
      var front, tail := PrunedParts(sign, protectRecent, messages);
      ScanKeepsContent(sign, front);
      TextsConcat(sign, front, tail);
      TextsConcat(sign, Scan(sign, front).kept, tail);
    }
    EachIsKept(sign, Pruned(sign, protectRecent, messages), messages);
  }

  /** Before the protected tail no empty assistant turn is left and no repetition of its neighbour. */
  lemma {:induction false} PruneLeavesNoRepeats(sign: Signer, protectRecent: nat, messages: seq<Message>, i: nat)
    requires |messages| >= 2 && i + Min(protectRecent, |messages|) < |Pruned(sign, protectRecent, messages)|
    ensures
      var b := Pruned(sign, protectRecent, messages)[i];
      && !(b.role == Assistant && b.content == "" && b.toolCalls == [])
      && (i > 0 ==>
            var a := Pruned(sign, protectRecent, messages)[i - 1];
            && (a.role == User == b.role ==> a.content != b.content)
            && (a.role == Assistant == b.role && a.content == "" == b.content ==>
                  a.toolCalls == [] || b.toolCalls == [] || sign(a.toolCalls) != sign(b.toolCalls)))
  {
    var front, tail := PrunedParts(sign, protectRecent, messages);
    var kept := Scan(sign, front).kept;
    ScanLeavesNoRepeats(sign, front);
    assert !EmptyTurn(kept[i]);
    if i > 0 {
      assert !Repeats(sign, kept[i - 1], kept[i]);
    }
  }

  /** What a pass guarantees for its output: it is the input with messages left out, and every system
      message and the protected tail are there. */
  lemma {:induction false} PruneKeepsContent(sign: Signer, protectRecent: nat, messages: seq<Message>)
    requires |messages| >= 2
    ensures
      var out, tail := Pruned(sign, protectRecent, messages), Min(protectRecent, |messages|);
      && tail <= |out|
      && Subsequence(out, messages)
      && Filter(out, IsSystem()) == Filter(messages, IsSystem())
      && out[|out| - tail..] == messages[|messages| - tail..]
  {
    var front, tail := PrunedParts(sign, protectRecent, messages);
    var kept := Scan(sign, front).kept;
    ScanIsSubsequence(sign, front);
    SubsequenceWithTail(kept, front, tail);
    ScanKeepsSystem(sign, front);
    FilterConcat(front, tail, IsSystem());
    FilterConcat(kept, tail, IsSystem());
    TailsAre(kept, front, tail);
  }

  lemma {:induction false} TailsAre(kept: seq<Message>, front: seq<Message>, tail: seq<Message>)
    ensures (kept + tail)[|kept + tail| - |tail|..] == tail == (front + tail)[|front + tail| - |tail|..]
  {
  }
}
