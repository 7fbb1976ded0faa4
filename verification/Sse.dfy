/**
 Incremental parsing of server-sent events, as both front ends do it
 (agentcook-app/src/hooks/useSseChat.ts, agentcook-admin/src/composables/useSseStream.ts).
 */
module Sse {
  import opened Seqs

  // ---- lines -------------------------------------------------------------------------------

  /** The part of `s` up to and including its last newline. */
  function Complete(s: string): (r: string)
    ensures |r| <= |s| && r == s[..|r|]
    ensures r == "" || r[|r| - 1] == '\n'
  {
    if s == "" || s[|s| - 1] == '\n' then s else Complete(s[..|s| - 1])
  }

  lemma {:induction false} RemainderHasNoNewline(s: string)
    ensures forall i :: |Complete(s)| <= i < |s| ==> s[i] != '\n'
  {
    if s != "" && s[|s| - 1] != '\n' {
      RemainderHasNoNewline(s[..|s| - 1]);
    }
  }

  /** `c` at the end of the last line. */
  function Extend(lines: seq<string>, c: char): (r: seq<string>)
    requires lines != []
    ensures |r| == |lines|
  {
    lines[..|lines| - 1] + [lines[|lines| - 1] + [c]]
  }

  /** `split("\n")`: always one more line than there are newlines. */
  function Lines(s: string): (r: seq<string>)
    ensures r != []
  {
    if s == "" then [""] else
      var before := Lines(s[..|s| - 1]);
      if s[|s| - 1] == '\n' then before + [""] else Extend(before, s[|s| - 1])
  }

  lemma {:induction false} LinesSnoc(s: string, c: char)
    ensures Lines(s + [c]) == if c == '\n' then Lines(s) + [""] else Extend(Lines(s), c)
  {
    assert (s + [c])[..|s|] == s;
  }

  lemma {:induction false} LinesJoin(a: string, b: string)
    ensures Lines(a + ['\n'] + b) == Lines(a) + Lines(b)
  {
    if b == "" {
      assert a + ['\n'] + b == a + ['\n'];
      LinesSnoc(a, '\n');
    } else {
      var front, c := b[..|b| - 1], b[|b| - 1];
      assert b == front + [c];
      JoinAssociates(a + ['\n'], front, [c]);
      LinesJoin(a, front);
      LinesSnoc(a + ['\n'] + front, c);
      LinesSnoc(front, c);
      ExtendJoin(Lines(a), Lines(front), c);
      JoinAssociates(Lines(a), Lines(front), [""]);
    }
  }

  lemma {:induction false} ExtendJoin(a: seq<string>, b: seq<string>, c: char)
    requires b != []
    ensures Extend(a + b, c) == a + Extend(b, c)
  {
    assert (a + b)[..|a + b| - 1] == a + b[..|b| - 1];
  }

  lemma {:induction false} CompleteOfJoin(a: string, b: string)
    requires a == "" || a[|a| - 1] == '\n'
    ensures Complete(a + b) == a + Complete(b)
  {
    if b == "" {
      assert a + b == a;
    } else if b[|b| - 1] != '\n' {
      assert (a + b)[..|a + b| - 1] == a + b[..|b| - 1];
      CompleteOfJoin(a, b[..|b| - 1]);
    }
  }

  // ---- what one line means ------------------------------------------------------------------

  datatype Effect = Ignored | Content(text: string) | Done

  /** White space and line terminators, as JavaScript's `trim` removes them. */
  predicate IsSpace(c: char) {
    || '\t' <= c <= '\r'
    || c == ' ' || c == '\U{A0}' || c == '\U{1680}'
    || '\U{2000}' <= c <= '\U{200A}'
    || '\U{2028}' <= c <= '\U{2029}'
    || c == '\U{202F}' || c == '\U{205F}' || c == '\U{3000}' || c == '\U{FEFF}'
  }

  function Trim(s: string): string {
    if s == "" then ""
    else if IsSpace(s[0]) then Trim(s[1..])
    else if IsSpace(s[|s| - 1]) then Trim(s[..|s| - 1])
    else s
  }

  const DATA: string := "data: "

  /** Comments, blank lines and other fields are skipped.  `decode` stands for what one data
      payload contributes: a JSON field, or the payload itself when it is not JSON. */
  function Meaning(decode: string -> string, line: string): Effect {
    var trimmed := Trim(line);
    if trimmed == "" || ":" <= trimmed then Ignored
    else if DATA <= trimmed then
      var payload := trimmed[|DATA|..];
      if payload == "[DONE]" then Done else Content(decode(payload))
    else Ignored
  }

  function Reading(decode: string -> string): string -> Effect {
    (line: string) => Meaning(decode, line)
  }

  lemma {:induction false} BlankLineIsIgnored(decode: string -> string)
    ensures Reading(decode)("").Ignored?
  {
    assert Trim("") == "";
  }

  // ---- one parse ---------------------------------------------------------------------------

  /** What scanning some lines yields: their text, and whether the terminator was among them. */
  datatype Scanned = Scanned(content: string, done: bool) {
    /** Scanning on, unless the terminator has been seen. */
    function Then(next: Scanned): Scanned {
      if done then this else Scanned(content + next.content, next.done)
    }
  }

  const NOTHING := Scanned("", false)

  function ScanLine(read: string -> Effect, line: string): Scanned {
    match read(line)
    case Done => Scanned("", true)
    case Ignored => NOTHING
    case Content(text) => Scanned(text, false)
  }

  function Scan(read: string -> Effect, lines: seq<string>): Scanned {
    if lines == [] then NOTHING else ScanLine(read, lines[0]).Then(Scan(read, lines[1..]))
  }

  datatype Parsed = Parsed(content: string, done: bool, remainder: string)

  function Parse(read: string -> Effect, raw: string): Parsed {
    var complete := Complete(raw);
    var scanned := Scan(read, Lines(complete));
    Parsed(scanned.content, scanned.done, raw[|complete|..])
  }

  lemma {:induction false} ThenAssociates(a: Scanned, b: Scanned, c: Scanned)
    ensures a.Then(b).Then(c) == a.Then(b.Then(c))
    ensures NOTHING.Then(a) == a == a.Then(NOTHING)
  {
    assert a.content + b.content + c.content == a.content + (b.content + c.content);
    assert "" + a.content == a.content == a.content + "";
  }

  lemma {:induction false} ScanConcat(read: string -> Effect, a: seq<string>, b: seq<string>)
    ensures Scan(read, a + b) == Scan(read, a).Then(Scan(read, b))
  {
    if a == [] {
      assert a + b == b;
      ThenAssociates(Scan(read, b), NOTHING, NOTHING);
    } else {
      assert (a + b)[1..] == a[1..] + b;
      ScanConcat(read, a[1..], b);
      ThenAssociates(ScanLine(read, a[0]), Scan(read, a[1..]), Scan(read, b));
    }
  }

  function TextOf(read: string -> Effect): string -> string {
    (line: string) => match read(line) case Content(text) => text case _ => ""
  }

  /** The content is what the lines before the first terminator contribute, and nothing of what
      follows it. */
  lemma {:induction false} ScanStopsAtDone(read: string -> Effect, lines: seq<string>) returns (k: nat)
    ensures k <= |lines|
    ensures forall i :: 0 <= i < k ==> !read(lines[i]).Done?
    ensures Scan(read, lines).done == (k < |lines|)
    ensures k < |lines| ==> read(lines[k]).Done?
    ensures Scan(read, lines).content == Concat(Map(lines[..k], TextOf(read)))
  {
    if lines == [] || read(lines[0]).Done? {
      k := 0;
      assert Map(lines[..0], TextOf(read)) == [];
    } else {
      var j := ScanStopsAtDone(read, lines[1..]);
      k := j + 1;
      assert Map(lines[..k], TextOf(read)) == [TextOf(read)(lines[0])] + Map(lines[1..][..j], TextOf(read));
    }
  }

  method ParseSseLines(decode: string -> string, raw: string) returns (r: Parsed)
    ensures r == Parse(Reading(decode), raw)
  {
    ghost var read := Reading(decode);
    var complete := Complete(raw);
    if complete == "" {
      BlankLineIsIgnored(decode);
      ScanBlank(read);
      assert Lines("") == [""] && raw[0..] == raw;
      return Parsed("", false, raw);
    }
    var remainder := raw[|complete|..];
    var lines := Lines(complete);
    var content, done := "", false;
    var i := 0;
    while i < |lines| && !done
      invariant 0 <= i <= |lines|
      invariant Scan(read, lines[..i]) == Scanned(content, done)
      decreases !done, |lines| - i
    {
      assert lines[..i + 1] == lines[..i] + [lines[i]];
      ScanConcat(read, lines[..i], [lines[i]]);
      ThenAssociates(ScanLine(read, lines[i]), NOTHING, NOTHING);
      var trimmed := Trim(lines[i]);
      if trimmed != "" && !(":" <= trimmed) && DATA <= trimmed {
        var payload := trimmed[|DATA|..];
        if payload == "[DONE]" {
          done := true;
        } else {
          content := content + decode(payload);
        }
      }
      i := i + 1;
    }
    assert lines == lines[..i] + lines[i..];
    ScanConcat(read, lines[..i], lines[i..]);
    ThenAssociates(Scanned(content, done), NOTHING, NOTHING);
    return Parsed(content, done, remainder);
  }

  // ---- feeding chunks ----------------------------------------------------------------------

  lemma {:induction false} ScanBlank(read: string -> Effect)
    requires read("").Ignored?
    ensures Scan(read, [""]) == NOTHING
  {
    assert [""][1..] == [];
  }

  /** Text whose last line is finished can be scanned on its own. */
  lemma {:induction false} ScanJoin(read: string -> Effect, a: string, b: string)
    requires read("").Ignored?
    requires a == "" || a[|a| - 1] == '\n'
    ensures Scan(read, Lines(a + b)) == Scan(read, Lines(a)).Then(Scan(read, Lines(b)))
  {
    ScanBlank(read);
    ThenAssociates(Scan(read, Lines(b)), NOTHING, NOTHING);
    if a == "" {
      assert a + b == b;
    } else {
      var a' := a[..|a| - 1];
      assert a + b == a' + ['\n'] + b;
      LinesJoin(a', b);
      ScanConcat(read, Lines(a'), Lines(b));
      ScanConcat(read, Lines(a'), [""]);
      ThenAssociates(Scan(read, Lines(a')), NOTHING, NOTHING);
    }
  }

  /** Parsing more text only needs the remainder of what came before. */
  lemma {:induction false} ParseMore(read: string -> Effect, raw: string, more: string)
    requires read("").Ignored?
    ensures
      var first, whole := Parse(read, raw), Parse(read, raw + more);
      var second := Parse(read, first.remainder + more);
      if first.done then whole.done && whole.content == first.content
      else whole == Parsed(first.content + second.content, second.done, second.remainder)
  {
    var complete := Complete(raw);
    var tail := raw[|complete|..] + more;
    assert raw + more == complete + tail;
    CompleteOfJoin(complete, tail);
    assert (raw + more)[|Complete(raw + more)|..] == tail[|Complete(tail)|..];
    ScanJoin(read, complete, Complete(tail));
  }

  /** What the reader of one connection holds; `received` is the text read so far. */
  datatype Reader = Reader(accumulated: string, done: bool, rawBuffer: string, received: string)

  /** A reader starts with what earlier attempts accumulated. */
  function Open(accumulated: string): Reader {
    Reader(accumulated, false, "", "")
  }

  /** One turn of the read loop; after the terminator nothing is read any more. */
  function Read(read: string -> Effect, r: Reader, chunk: string): Reader {
    if r.done then r else
      var p := Parse(read, r.rawBuffer + chunk);
      Reader(r.accumulated + p.content, p.done, p.remainder, r.received + chunk)
  }

  function ReadAll(read: string -> Effect, r: Reader, chunks: seq<string>): Reader {
    if chunks == [] then r
    else Read(read, ReadAll(read, r, chunks[..|chunks| - 1]), chunks[|chunks| - 1])
  }

  /** The reader agrees with one parse of `text`: same content, same flag, and until the
      terminator the whole text has been received and the buffer is the unfinished line. */
  ghost predicate Agrees(before: string, r: Reader, whole: Parsed, text: string) {
    && r.accumulated == before + whole.content
    && r.done == whole.done
    && |r.received| <= |text| && r.received == text[..|r.received|]
    && (!r.done ==> r.received == text && r.rawBuffer == whole.remainder)
  }

  ghost predicate StandsAt(read: string -> Effect, before: string, r: Reader, text: string) {
    Agrees(before, r, Parse(read, text), text)
  }

  lemma {:induction false} AgreesOn(before: string, r: Reader, first: Parsed, second: Parsed, whole: Parsed,
          text: string, chunk: string)
    requires Agrees(before, r, first, text)
    requires if first.done then whole.done && whole.content == first.content
             else whole == Parsed(first.content + second.content, second.done, second.remainder)
    ensures
      var r' := if r.done then r
                else Reader(r.accumulated + second.content, second.done, second.remainder, r.received + chunk);
      Agrees(before, r', whole, text + chunk)
  {
    if r.done {
      assert (text + chunk)[..|r.received|] == text[..|r.received|];
    } else {
      assert before + first.content + second.content == before + (first.content + second.content);
      assert (text + chunk)[..|text + chunk|] == text + chunk;
    }
  }

  lemma {:induction false} ReadMovesOn(read: string -> Effect, before: string, r: Reader, text: string, chunk: string)
    requires read("").Ignored?
    requires StandsAt(read, before, r, text)
    ensures StandsAt(read, before, Read(read, r, chunk), text + chunk)
  {
    ParseMore(read, text, chunk);
    AgreesOn(before, r, Parse(read, text), Parse(read, Parse(read, text).remainder + chunk),
             Parse(read, text + chunk), text, chunk);
  }

  /** Chunking does not matter: for every way of cutting a text into chunks, the accumulated
      content and the done flag are those of one parse of the whole text. */
  lemma {:induction false} ChunkingDoesNotMatter(read: string -> Effect, before: string, chunks: seq<string>)
    requires read("").Ignored?
    ensures StandsAt(read, before, ReadAll(read, Open(before), chunks), Concat(chunks))
  {
    if chunks == [] {
      ScanBlank(read);
      assert before + "" == before;
    } else {
      var front, chunk := chunks[..|chunks| - 1], chunks[|chunks| - 1];
      assert chunks == front + [chunk];
      ConcatSnoc(front, chunk);
      ChunkingDoesNotMatter(read, before, front);
      ReadMovesOn(read, before, ReadAll(read, Open(before), front), Concat(front), chunk);
    }
  }

  /** Two ways of cutting the same text end with the same content. */
  lemma {:induction false} TwoChunkings(decode: string -> string, before: string, a: seq<string>, b: seq<string>)
    requires Concat(a) == Concat(b)
    ensures
      var r, r' := ReadAll(Reading(decode), Open(before), a), ReadAll(Reading(decode), Open(before), b);
      r.accumulated == r'.accumulated && r.done == r'.done
  {
    BlankLineIsIgnored(decode);
    ChunkingDoesNotMatter(Reading(decode), before, a);
    ChunkingDoesNotMatter(Reading(decode), before, b);
  }

  /** Until the terminator arrives, the finished lines and the buffer are the text received. */
  lemma {:induction false} NothingIsDropped(read: string -> Effect, before: string, chunks: seq<string>)
    requires read("").Ignored?
    ensures
      var r := ReadAll(read, Open(before), chunks);
      !r.done ==>
        && Complete(Concat(chunks)) + r.rawBuffer == Concat(chunks)
        && r.accumulated == before + Scan(read, Lines(Complete(Concat(chunks)))).content
  {
    ChunkingDoesNotMatter(read, before, chunks);
    CutsText(Concat(chunks));
  }

  lemma {:induction false} CutsText(text: string)
    ensures Complete(text) + text[|Complete(text)|..] == text
  {
  }

  // ---- what is on the wire -------------------------------------------------------------------------

  /** The white space of JavaScript, character by character. */
  lemma {:induction false} WhiteSpaceIs(c: char)
    ensures IsSpace(c) <==>
      c in {'\U{9}', '\U{A}', '\U{B}', '\U{C}', '\U{D}', '\U{20}', '\U{A0}', '\U{1680}', '\U{2000}', '\U{2001}',
            '\U{2002}', '\U{2003}', '\U{2004}', '\U{2005}', '\U{2006}', '\U{2007}', '\U{2008}', '\U{2009}',
            '\U{200A}', '\U{2028}', '\U{2029}', '\U{202F}', '\U{205F}', '\U{3000}', '\U{FEFF}'}
  {
  }

  /** What a server sends: a data field, or a line that carries none. */
  datatype Item = Payload(text: string) | Skipped(text: string) {
    function Field(): string {
      match this
      case Payload(text) => "data: " + text
      case Skipped(text) => text
    }
  }

  /** A line: an item between white space that does not end the line, for example a carriage
      return before the newline. */
  datatype Sent = Sent(lead: string, item: Item, trail: string) {
    function Line(): string {
      lead + item.Field() + trail
    }
  }

  ghost predicate Blank(s: string) {
    forall i :: 0 <= i < |s| ==> IsSpace(s[i]) && s[i] != '\n'
  }

  predicate Edged(s: string) {
    s != "" && !IsSpace(s[0]) && !IsSpace(s[|s| - 1])
  }

  /** A payload does not end in white space and is not the terminator; a skipped line is blank, a
      comment, or a field other than `data: `. */
  ghost predicate Sendable(l: Sent) {
    && Blank(l.lead) && Blank(l.trail) && '\n' !in l.item.text
    && match l.item
       case Payload(text) => text != "" && !IsSpace(text[|text| - 1]) && text != "[DONE]"
       case Skipped(text) => text == "" || (Edged(text) && (text[0] == ':' || !("data: " <= text)))
  }

  function Wire(lines: seq<Sent>): string {
    if lines == [] then "" else lines[0].Line() + ['\n'] + Wire(lines[1..])
  }

  /** What the payloads contribute, in order. */
  function Decoded(decode: string -> string, lines: seq<Sent>): string {
    if lines == [] then ""
    else (if lines[0].item.Payload? then decode(lines[0].item.text) else "") + Decoded(decode, lines[1..])
  }

  lemma {:induction false} TrimBlank(s: string)
    requires Blank(s)
    ensures Trim(s) == ""
  {
    if s != "" {
      TrimBlank(s[1..]);
    }
  }

  lemma {:induction false} TrimTrail(core: string, trail: string)
    requires Edged(core) && Blank(trail)
    ensures Trim(core + trail) == core
  {
    var s := core + trail;
    assert s[0] == core[0];
    if trail == "" {
      assert s == core;
    } else {
      assert s[|s| - 1] == trail[|trail| - 1];
      assert s[..|s| - 1] == core + trail[..|trail| - 1];
      TrimTrail(core, trail[..|trail| - 1]);
    }
  }

  lemma {:induction false} TrimFinds(lead: string, core: string, trail: string)
    requires Edged(core) && Blank(lead) && Blank(trail)
    ensures Trim(lead + core + trail) == core
  {
    var s := lead + core + trail;
    if lead == "" {
      assert s == core + trail;
      TrimTrail(core, trail);
    } else {
      assert s[0] == lead[0] && s[1..] == lead[1..] + core + trail;
      TrimFinds(lead[1..], core, trail);
    }
  }

  lemma {:induction false} LineMeans(decode: string -> string, l: Sent)
    requires Sendable(l)
    ensures Reading(decode)(l.Line()) == if l.item.Payload? then Content(decode(l.item.text)) else Ignored
  {
    var field := l.item.Field();
    if field == "" {
      assert l.Line() == l.lead + l.trail;
      TrimBlank(l.lead + l.trail);
    } else {
      if l.item.Payload? {
        assert field[0] == 'd' && field[|field| - 1] == l.item.text[|l.item.text| - 1];
        assert field[..6] == "data: " && field[6..] == l.item.text;
      }
      TrimFinds(l.lead, field, l.trail);
    }
  }

  lemma {:induction false} TerminatorMeans(decode: string -> string, lead: string, trail: string)
    requires Blank(lead) && Blank(trail)
    ensures Reading(decode)(lead + "data: [DONE]" + trail) == Done
  {
    var field := "data: [DONE]";
    TrimFinds(lead, field, trail);
    assert field[..6] == "data: " && field[6..] == "[DONE]";
  }

  lemma {:induction false} OneLine(s: string)
    requires '\n' !in s
    ensures Lines(s) == [s]
  {
    if s != "" {
      OneLine(s[..|s| - 1]);
      assert s == s[..|s| - 1] + [s[|s| - 1]];
    }
  }

  lemma {:induction false} LineHasNoNewline(l: Sent)
    requires Sendable(l)
    ensures '\n' !in l.Line()
  {
  }

  /** One finished line, and then the others. */
  lemma {:induction false} ScanFirst(read: string -> Effect, line: string, rest: string)
    requires '\n' !in line
    ensures Scan(read, Lines(line + ['\n'] + rest)) == ScanLine(read, line).Then(Scan(read, Lines(rest)))
  {
    OneLine(line);
    LinesJoin(line, rest);
    ScanConcat(read, [line], Lines(rest));
    ThenAssociates(ScanLine(read, line), NOTHING, NOTHING);
    assert Scan(read, [line]) == ScanLine(read, line);
  }

  /** Scanning what was sent yields what the payloads contribute, and goes on. */
  lemma {:induction false} ScanWire(decode: string -> string, lines: seq<Sent>)
    requires forall i :: 0 <= i < |lines| ==> Sendable(lines[i])
    ensures Scan(Reading(decode), Lines(Wire(lines))) == Scanned(Decoded(decode, lines), false)
    ensures Wire(lines) == "" || Wire(lines)[|Wire(lines)| - 1] == '\n'
  {
    var read := Reading(decode);
    BlankLineIsIgnored(decode);
    if lines == [] {
      ScanBlank(read);
    } else {
      var line := lines[0].Line();
      ScanWire(decode, lines[1..]);
      LineHasNoNewline(lines[0]);
      ScanFirst(read, line, Wire(lines[1..]));
      LineMeans(decode, lines[0]);
    }
  }

  lemma {:induction false} WireIsComplete(text: string)
    requires text == "" || text[|text| - 1] == '\n'
    ensures Complete(text) == text
  {
  }

  /** From the wire to the screen, without a terminator: however the text is cut into chunks, the
      reader shows what the payloads contribute, in order, and is not done. */
  lemma {:induction false} SentIsRead(decode: string -> string, before: string, lines: seq<Sent>, chunks: seq<string>)
    requires forall i :: 0 <= i < |lines| ==> Sendable(lines[i])
    requires Concat(chunks) == Wire(lines)
    ensures
      var r := ReadAll(Reading(decode), Open(before), chunks);
      r.accumulated == before + Decoded(decode, lines) && !r.done
  {
    BlankLineIsIgnored(decode);
    ChunkingDoesNotMatter(Reading(decode), before, chunks);
    ScanWire(decode, lines);
    WireIsComplete(Wire(lines));
  }

  lemma {:induction false} ScanUntilDone(decode: string -> string, lines: seq<Sent>, last: string, rest: string)
    requires forall i :: 0 <= i < |lines| ==> Sendable(lines[i])
    requires Reading(decode)(last).Done? && '\n' !in last
    ensures Scan(Reading(decode), Lines(Wire(lines) + (last + ['\n'] + rest))) == Scanned(Decoded(decode, lines), true)
  {
    var read := Reading(decode);
    BlankLineIsIgnored(decode);
    ScanWire(decode, lines);
    ScanJoin(read, Wire(lines), last + ['\n'] + rest);
    ScanFirst(read, last, rest);
    assert Decoded(decode, lines) + "" == Decoded(decode, lines);
  }

  lemma {:induction false} TerminatorHasNoNewline(lead: string, trail: string)
    requires Blank(lead) && Blank(trail)
    ensures '\n' !in lead + "data: [DONE]" + trail
  {
    assert '\n' !in "data: [DONE]";
  }

  lemma {:induction false} ScanTerminated(decode: string -> string, lines: seq<Sent>, lead: string, trail: string,
          rest: string)
    requires forall i :: 0 <= i < |lines| ==> Sendable(lines[i])
    requires Blank(lead) && Blank(trail)
    ensures Scan(Reading(decode), Lines(Wire(lines) + (lead + "data: [DONE]" + trail + ['\n'] + rest)))
         == Scanned(Decoded(decode, lines), true)
  {
    TerminatorMeans(decode, lead, trail);
    TerminatorHasNoNewline(lead, trail);
    ScanUntilDone(decode, lines, lead + "data: [DONE]" + trail, rest);
  }

  lemma {:induction false} CompleteTerminated(wire: string, last: string, rest: string)
    requires wire == "" || wire[|wire| - 1] == '\n'
    ensures Complete(wire + (last + ['\n'] + rest)) == wire + (last + ['\n'] + Complete(rest))
  {
    var front := wire + (last + ['\n']);
    assert wire + (last + ['\n'] + rest) == front + rest;
    assert wire + (last + ['\n'] + Complete(rest)) == front + Complete(rest);
    CompleteOfJoin(front, rest);
  }

  lemma {:induction false} ParseTerminated(decode: string -> string, lines: seq<Sent>, lead: string, trail: string,
          rest: string)
    requires forall i :: 0 <= i < |lines| ==> Sendable(lines[i])
    requires Blank(lead) && Blank(trail)
    ensures
      var p := Parse(Reading(decode), Wire(lines) + (lead + "data: [DONE]" + trail + ['\n'] + rest));
      p.content == Decoded(decode, lines) && p.done
  {
    ScanWire(decode, lines);
    CompleteTerminated(Wire(lines), lead + "data: [DONE]" + trail, rest);
    ScanTerminated(decode, lines, lead, trail, Complete(rest));
  }

  /** With one: the reader is done, and shows what the payloads before it contribute, whatever
      follows. */
  lemma {:induction false} TerminatorIsRecognized(decode: string -> string, before: string, lines: seq<Sent>,
          lead: string, trail: string, rest: string, chunks: seq<string>)
    requires forall i :: 0 <= i < |lines| ==> Sendable(lines[i])
    requires Blank(lead) && Blank(trail)
    requires Concat(chunks) == Wire(lines) + (lead + "data: [DONE]" + trail + ['\n'] + rest)
    ensures
      var r := ReadAll(Reading(decode), Open(before), chunks);
      r.accumulated == before + Decoded(decode, lines) && r.done
  {
    BlankLineIsIgnored(decode);
    ParseTerminated(decode, lines, lead, trail, rest);
    ChunkingDoesNotMatter(Reading(decode), before, chunks);
  }

  // ---- the read loop -------------------------------------------------------------------------

  /** How a connection ends for the chat hook: with the text, or with nothing to show. */
  datatype Ending = Finished(text: string) | NoResponse

  /** Each notification properly extends those before. */
  ghost predicate Growing(notified: seq<string>) {
    forall i, k :: 0 <= i < k < |notified| ==> notified[i] < notified[k]
  }

  lemma {:induction false} GrowingMeans(notified: seq<string>, i: nat, k: nat)
    requires Growing(notified) && i < k < |notified|
    ensures |notified[i]| < |notified[k]| && notified[i] == notified[k][..|notified[i]|]
  {
    assert notified[i] < notified[k];
  }

  function LatestOf(before: string, notified: seq<string>): string {
    if notified == [] then before else notified[|notified| - 1]
  }

  /** The read loop of one connection.  `notified` lists the values passed to `onChunk`; the last
      one is the final text. */
  method ReadLoop(decode: string -> string, before: string, chunks: seq<string>)
    returns (ending: Ending, notified: seq<string>)
    ensures
      var r := ReadAll(Reading(decode), Open(before), chunks);
      if r.accumulated == "" && !r.done then ending == NoResponse else ending == Finished(r.accumulated)
    ensures LatestOf(before, notified) == ReadAll(Reading(decode), Open(before), chunks).accumulated
    ensures Growing(notified)
  {
    ghost var read, r := Reading(decode), Open(before);
    var accumulated, rawBuffer := before, "";
    notified := [];
    for i := 0 to |chunks|
      invariant r == ReadAll(read, Open(before), chunks[..i]) && !r.done
      invariant r.accumulated == accumulated && r.rawBuffer == rawBuffer
      invariant LatestOf(before, notified) == accumulated
      invariant Growing(notified)
    {
      ReadOneMore(read, Open(before), chunks, i);
      rawBuffer := rawBuffer + chunks[i];
      var parsed := ParseSseLines(decode, rawBuffer);
      r := Read(read, r, chunks[i]);
      rawBuffer := parsed.remainder;
      if parsed.content != "" {
        Notify(before, notified, accumulated, parsed.content);
        accumulated := accumulated + parsed.content;
        notified := notified + [accumulated];
      }
      if parsed.done {
        DoneIsFinal(read, before, chunks, i + 1);
        return Finished(accumulated), notified;
      }
    }
    assert chunks[..|chunks|] == chunks;
    if accumulated == "" {
      return NoResponse, notified;
    }
    return Finished(accumulated), notified;
  }

  /** The state the admin console's composable shows. */
  class StreamView {
    var accumulated: string
    var running: bool

    constructor ()
      ensures accumulated == "" && !running
    {
      accumulated, running := "", false;
    }

    /** The composable's read loop over one connection: it ends with the terminator or with the
        stream, and reports no failure in either case. */
    method Consume(decode: string -> string, chunks: seq<string>)
      modifies this
      ensures accumulated == ReadAll(Reading(decode), Open(old(accumulated)), chunks).accumulated
      ensures old(accumulated) <= accumulated && !running
    {
      ghost var read, start := Reading(decode), Open(accumulated);
      ghost var r := start;
      var rawBuffer := "";
      running := true;
      for i := 0 to |chunks|
        invariant r == ReadAll(read, start, chunks[..i]) && !r.done
        invariant r.accumulated == accumulated && r.rawBuffer == rawBuffer
        invariant old(accumulated) <= accumulated
      {
        ReadOneMore(read, start, chunks, i);
        rawBuffer := rawBuffer + chunks[i];
        var parsed := ParseSseLines(decode, rawBuffer);
        r := Read(read, r, chunks[i]);
        rawBuffer := parsed.remainder;
        if parsed.content != "" {
          accumulated := accumulated + parsed.content;
        }
        if parsed.done {
          running := false;
          DoneIsFinal(read, old(accumulated), chunks, i + 1);
          return;
        }
      }
      assert chunks[..|chunks|] == chunks;
      running := false;
    }
  }

  lemma {:induction false} ReadOneMore(read: string -> Effect, r: Reader, chunks: seq<string>, i: nat)
    requires i < |chunks|
    ensures ReadAll(read, r, chunks[..i + 1]) == Read(read, ReadAll(read, r, chunks[..i]), chunks[i])
  {
    assert chunks[..i + 1][..i] == chunks[..i];
  }

  lemma {:induction false} Notify(before: string, notified: seq<string>, accumulated: string, content: string)
    requires Growing(notified) && LatestOf(before, notified) == accumulated && content != ""
    ensures Growing(notified + [accumulated + content])
  {
    var all := notified + [accumulated + content];
    forall i, k | 0 <= i < k < |all|
      ensures all[i] < all[k]
    {
      if k == |notified| {
        assert notified[i] <= accumulated;
      }
    }
  }

  lemma {:induction false} DoneIsFinal(read: string -> Effect, before: string, chunks: seq<string>, i: nat)
    requires i <= |chunks| && ReadAll(read, Open(before), chunks[..i]).done
    ensures ReadAll(read, Open(before), chunks) == ReadAll(read, Open(before), chunks[..i])
    decreases |chunks| - i
  {
    if i == |chunks| {
      assert chunks[..i] == chunks;
    } else {
      assert chunks[..i + 1][..i] == chunks[..i];
      DoneIsFinal(read, before, chunks, i + 1);
    }
  }
}
