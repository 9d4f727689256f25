/** The line splitter for a server-sent-event response, fed by network writes of any size. */
module Sse {
  import opened Json
  import opened Optional
  import opened HttpText

  const INVALID := "Invalid or failed stream callback"
  const REPORTED := "Upstream model reported an error"

  /** A provider's reading of one event: the token it carries, and whether it is the last one
      (None when that check throws). */
  datatype Strategy = Strategy(token: string -> Option<string>, complete: Json -> Option<bool>)

  /** `fails` says whether the token callback throws, given all tokens delivered up to now. */
  datatype Env = Env(codec: Codec, strategy: Strategy, fails: seq<string> -> bool)

  datatype Stream = Stream(buffer: string, error: string, completed: bool, tokens: seq<string>)

  const NEW_STREAM := Stream("", "", false, [])

  // ---- One line -----------------------------------------------------------------------------------------------

  /** A data line's event, without a trailing carriage return and one leading blank. */
  function Event(line: string): Option<string> {
    var l := if line != "" && line[|line| - 1] == '\r' then line[..|line| - 1] else line;
    if |l| < 5 || l[..5] != "data:" then None
    else
      var e := l[5..];
      Some(if e != "" && e[0] == ' ' then e[1..] else e)
  }

  predicate FineCode(code: Json) {
    match code
    case Null => true
    case Str(s) => s == "" || s == "200"
    case Int(n) => n == 200
    case Float(r) => r == 200.0
    case _ => false
  }

  predicate ReportsError(j: Json) {
    j.Obj? && ("error" in j.fields || ("code" in j.fields && !FineCode(j.fields["code"])))
  }

  function Conclude(env: Env, s: Stream, j: Json): Stream {
    match env.strategy.complete(j)
    case None => s.(error := INVALID)
    case Some(last) => s.(completed := last)
  }

  function OnEvent(env: Env, s: Stream, e: string): Stream {
    if e == "[DONE]" then s.(completed := true)
    else if e == "" then s
    else
      match env.codec.parse(e)
      case None => s.(error := INVALID)
      case Some(j) =>
        if ReportsError(j) then s.(error := REPORTED)
        else if s.completed then s
        else
          match env.strategy.token(e)
          case None => Conclude(env, s, j)
          case Some(t) =>
            var s1 := s.(tokens := s.tokens + [t]);
            if env.fails(s1.tokens) then s1.(error := INVALID) else Conclude(env, s1, j)
  }

  function OnLine(env: Env, s: Stream, line: string): (r: Stream)
    ensures r.buffer == s.buffer && s.tokens <= r.tokens
    ensures s.completed ==> r.completed && r.tokens == s.tokens
  {
    match Event(line)
    case None => s
    case Some(e) => OnEvent(env, s, e)
  }

  // ---- The buffer -----------------------------------------------------------------------------------------------

  /** Takes complete lines off the buffer until there is none or one of them fails. */
  function Consume(env: Env, s: Stream): (r: Stream)
    ensures s.tokens <= r.tokens && (s.completed ==> r.completed && r.tokens == s.tokens)
    decreases |s.buffer|
  {
    var pos := Find(s.buffer, '\n');
    if s.error != "" || pos == |s.buffer| then s
    else Consume(env, OnLine(env, s.(buffer := s.buffer[pos + 1..]), s.buffer[..pos]))
  }

  /** One call of the write callback; a transfer it has aborted makes no further call. */
  function Write(env: Env, s: Stream, chunk: string): (r: Stream)
    ensures s.tokens <= r.tokens && (s.completed ==> r.completed && r.tokens == s.tokens)
  {
    if s.error != "" then s else Consume(env, s.(buffer := s.buffer + chunk))
  }

  function WriteAll(env: Env, s: Stream, chunks: seq<string>): Stream
    decreases |chunks|
  {
    if chunks == [] then s else WriteAll(env, Write(env, s, chunks[0]), chunks[1..])
  }

  class StreamState {
    var buffer: string
    var error: string
    var completed: bool
    var tokens: seq<string>

    function View(): Stream
      reads this
    {
      Stream(buffer, error, completed, tokens)
    }

    constructor ()
      ensures View() == NEW_STREAM
    {
      buffer, error, completed, tokens := "", "", false, [];
    }

    method TakeEvent(env: Env, event: string)
      modifies this
      ensures View() == OnEvent(env, old(View()), event)
    {
      if event == "[DONE]" { completed := true; return; }
      if event == "" { return; }
      var parsed := env.codec.parse(event);
      if parsed.None? { error := INVALID; return; }
      if ReportsError(parsed.value) { error := REPORTED; return; }
      if completed { return; }
      var token := env.strategy.token(event);
      if token.Some? {
        tokens := tokens + [token.value];
        if env.fails(tokens) { error := INVALID; return; }
      }
      match env.strategy.complete(parsed.value) {
        case None => error := INVALID;
        case Some(last) => completed := last;
      }
    }

    method TakeLine(env: Env, text: string)
      modifies this
      ensures View() == OnLine(env, old(View()), text)
    {
      var line := text;
      if line != "" && line[|line| - 1] == '\r' { line := line[..|line| - 1]; }
      if |line| < 5 || line[..5] != "data:" { return; }
      var event := line[5..];
      if event != "" && event[0] == ' ' { event := event[1..]; }
      TakeEvent(env, event);
    }

    /** The write callback; false aborts the transfer. */
    method OnWrite(env: Env, chunk: string) returns (ok: bool)
      requires error == ""
      modifies this
      ensures View() == Write(env, old(View()), chunk) && ok == (error == "")
    {
      hide OnLine;
      buffer := buffer + chunk;
      var pos := Find(buffer, '\n');
      while pos < |buffer|
        invariant error == "" && pos == Find(buffer, '\n')
        invariant Consume(env, View()) == Write(env, old(View()), chunk)
        decreases |buffer|
      {
        var line := buffer[..pos];
        buffer := buffer[pos + 1..];
        TakeLine(env, line);
        if error != "" { return false; }
        pos := Find(buffer, '\n');
      }
      return true;
    }
  }

  // ---- Independence of the chunking -----------------------------------------------------------------------------

  lemma FindFirst(a: string, b: string)
    requires Find(a, '\n') < |a|
    ensures Find(a + b, '\n') == Find(a, '\n')
  {
    var n := Find(a, '\n');
    assert (a + b)[..n] == a[..n];
    FindAt(a + b, '\n', n);
  }

  /** Input that comes later is read where the earlier input left off, and not at all after an
      error. */
  lemma {:induction false} ConsumeSplit(env: Env, s: Stream, b: string)
    ensures var r := Consume(env, s);
      Consume(env, s.(buffer := s.buffer + b)) ==
        if r.error == "" then Consume(env, r.(buffer := r.buffer + b)) else r.(buffer := r.buffer + b)
    decreases |s.buffer|
  {
    hide *;
    var more := s.(buffer := s.buffer + b);
    ConsumeOnce(env, s);
    ConsumeOnce(env, more);
    var pos := Find(s.buffer, '\n');
    if s.error == "" && pos < |s.buffer| {
      FindFirst(s.buffer, b);
      var s1 := OnLine(env, s.(buffer := s.buffer[pos + 1..]), s.buffer[..pos]);
      assert more.buffer[..pos] == s.buffer[..pos] && more.buffer[pos + 1..] == s1.buffer + b;
      LineKeepsBuffer(env, s.(buffer := s.buffer[pos + 1..]), s.buffer[..pos], s1.buffer + b);
      assert OnLine(env, more.(buffer := more.buffer[pos + 1..]), more.buffer[..pos]) == s1.(buffer := s1.buffer + b);
      ConsumeSplit(env, s1, b);
    }
  }

  lemma ConsumeOnce(env: Env, s: Stream)
    ensures var pos := Find(s.buffer, '\n');
      Consume(env, s) ==
        if s.error != "" || pos == |s.buffer| then s
        else Consume(env, OnLine(env, s.(buffer := s.buffer[pos + 1..]), s.buffer[..pos]))
  {
    hide OnLine;
  }

  lemma LineKeepsBuffer(env: Env, s: Stream, line: string, buffer: string)
    ensures OnLine(env, s.(buffer := buffer), line) == OnLine(env, s, line).(buffer := buffer)
  {
  }

  /** What a stream shows: its tokens, its completion, its error; and, while it can go on, what is
      still buffered. */
  function Shown(s: Stream): Stream { if s.error != "" then s.(buffer := "") else s }

  lemma {:induction false} WrittenWhole(env: Env, s: Stream, chunks: seq<string>)
    requires s.error == "" && Consume(env, s) == s
    ensures Shown(WriteAll(env, s, chunks)) == Shown(Consume(env, s.(buffer := s.buffer + Flatten(chunks))))
    decreases |chunks|
  {
    hide *;
    if chunks == [] {
      NothingWritten(env, s);
    } else {
      var r := Write(env, s, chunks[0]);
      var rest := Flatten(chunks[1..]);
      WriteFirst(env, s, chunks);
      BothWritten(env, s, chunks[0], rest);
      if r.error == "" {
        ConsumeSettled(env, s.(buffer := s.buffer + chunks[0]));
        WrittenWhole(env, r, chunks[1..]);
      } else {
        WriteAborted(env, r, chunks[1..]);
        ShownFailed(r, rest);
      }
    }
  }

  lemma NothingWritten(env: Env, s: Stream)
    ensures WriteAll(env, s, []) == s && s.(buffer := s.buffer + Flatten([])) == s
  {
    assert s.buffer + "" == s.buffer;
  }

  lemma BothWritten(env: Env, s: Stream, a: string, b: string)
    ensures var r := Consume(env, s.(buffer := s.buffer + a));
      Consume(env, s.(buffer := s.buffer + (a + b))) ==
        if r.error == "" then Consume(env, r.(buffer := r.buffer + b)) else r.(buffer := r.buffer + b)
  {
    hide *;
    assert s.buffer + (a + b) == s.buffer + a + b;
    ConsumeSplit(env, s.(buffer := s.buffer + a), b);
  }

  lemma WriteFirst(env: Env, s: Stream, chunks: seq<string>)
    requires s.error == "" && chunks != []
    ensures WriteAll(env, s, chunks) == WriteAll(env, Write(env, s, chunks[0]), chunks[1..])
    ensures Write(env, s, chunks[0]) == Consume(env, s.(buffer := s.buffer + chunks[0]))
    ensures Flatten(chunks) == chunks[0] + Flatten(chunks[1..])
  {
    hide Consume;
  }

  lemma ShownFailed(s: Stream, more: string)
    requires s.error != ""
    ensures Shown(s.(buffer := s.buffer + more)) == Shown(s)
  {
  }

  lemma {:induction false} ConsumeSettled(env: Env, s: Stream)
    ensures Consume(env, Consume(env, s)) == Consume(env, s)
    decreases |s.buffer|
  {
    hide *;
    ConsumeOnce(env, s);
    var pos := Find(s.buffer, '\n');
    if s.error == "" && pos < |s.buffer| {
      ConsumeSettled(env, OnLine(env, s.(buffer := s.buffer[pos + 1..]), s.buffer[..pos]));
    }
  }

  lemma {:induction false} WriteAborted(env: Env, s: Stream, chunks: seq<string>)
    requires s.error != ""
    ensures WriteAll(env, s, chunks) == s
    decreases |chunks|
  {
    if chunks != [] { WriteAborted(env, s, chunks[1..]); }
  }

  /** Whatever the cuts between network writes: the same tokens, completion flag and error. */
  lemma ChunkIndependence(env: Env, xs: seq<string>, ys: seq<string>)
    requires Flatten(xs) == Flatten(ys)
    ensures Shown(WriteAll(env, NEW_STREAM, xs)) == Shown(WriteAll(env, NEW_STREAM, ys))
  {
    WrittenWhole(env, NEW_STREAM, xs);
    WrittenWhole(env, NEW_STREAM, ys);
  }

  // ---- Round trip -------------------------------------------------------------------------------------------------

  /** The text of a list of events, with LF or CRLF line ends. */
  function EventsText(events: seq<string>, eol: string): string {
    if events == [] then "" else "data: " + events[0] + eol + eol + EventsText(events[1..], eol)
  }

  /** The events one after the other, up to the first that fails. */
  function OnEvents(env: Env, s: Stream, events: seq<string>): Stream
    decreases |events|
  {
    if events == [] || s.error != "" then s else OnEvents(env, OnEvent(env, s, events[0]), events[1..])
  }

  lemma LineConsumed(env: Env, s: Stream, line: string, rest: string)
    requires s.error == "" && '\n' !in line && s.buffer == line + "\n" + rest
    ensures Consume(env, s) == Consume(env, OnLine(env, s.(buffer := rest), line))
  {
    assert s.buffer[..|line|] == line && s.buffer[|line| + 1..] == rest;
    FindAt(s.buffer, '\n', |line|);
  }

  lemma EventLine(e: string, cr: string)
    requires cr == "" || cr == "\r"
    requires e != "" && e[|e| - 1] != '\r'
    ensures Event("data: " + e + cr) == Some(e) && Event(cr) == None
  {
    var line := "data: " + e;
    assert (line + "\r")[..|line|] == line && line + "" == line;
    assert line[..5] == "data:" && line[5..] == " " + e && (" " + e)[1..] == e;
  }

  /** The two lines of one event, whichever line ends they carry, do what the event says. */
  lemma EventTaken(env: Env, s: Stream, e: string, cr: string, rest: string)
    requires s.error == "" && (cr == "" || cr == "\r")
    requires e != "" && '\n' !in e && e[|e| - 1] != '\r'
    requires s.buffer == "data: " + e + (cr + "\n") + (cr + "\n") + rest
    ensures var s1 := OnEvent(env, s, e);
      Shown(Consume(env, s)) == Shown(if s1.error == "" then Consume(env, s1.(buffer := rest)) else s1)
  {
    var line := "data: " + e + cr;
    var tail := cr + "\n" + rest;
    EventLine(e, cr);
    assert s.buffer == line + "\n" + tail;
    LineConsumed(env, s, line, tail);
    LineKeepsBuffer(env, s, line, tail);
    hide OnEvent, Event;
    var s2 := OnEvent(env, s, e).(buffer := tail);
    assert OnLine(env, s.(buffer := tail), line) == s2;
    if s2.error == "" {
      LineConsumed(env, s2, cr, rest);
    }
  }

  /** The text of any events, with either line end and in any chunks, is read back as those
      events in order, up to the first that fails. */
  lemma {:induction false} EventsTaken(env: Env, s: Stream, events: seq<string>, cr: string)
    requires s.error == "" && (cr == "" || cr == "\r") && s.buffer == EventsText(events, cr + "\n")
    requires forall i :: 0 <= i < |events| ==> events[i] != "" && '\n' !in events[i] && events[i][|events[i]| - 1] != '\r'
    ensures Shown(Consume(env, s)) == OnEvents(env, s, events).(buffer := "")
    decreases |events|
  {
    hide OnEvent, OnLine;
    if events != [] {
      var e, rest := events[0], EventsText(events[1..], cr + "\n");
      EventTaken(env, s, e, cr, rest);
      var s1 := OnEvent(env, s, e);
      EventsKeepBuffer(env, s1, events[1..], rest);
      if s1.error == "" {
        EventsTaken(env, s1.(buffer := rest), events[1..], cr);
      }
    }
  }

  lemma {:induction false} EventsKeepBuffer(env: Env, s: Stream, events: seq<string>, buffer: string)
    ensures OnEvents(env, s.(buffer := buffer), events) == OnEvents(env, s, events).(buffer := buffer)
    decreases |events|
  {
    if events != [] && s.error == "" {
      EventKeepsBuffer(env, s, events[0], buffer);
      EventsKeepBuffer(env, OnEvent(env, s, events[0]), events[1..], buffer);
    }
  }

  lemma EventKeepsBuffer(env: Env, s: Stream, e: string, buffer: string)
    ensures OnEvent(env, s.(buffer := buffer), e) == OnEvent(env, s, e).(buffer := buffer)
  {
  }

  // ---- What events do ------------------------------------------------------------------------------------------------

  /** A line that does not begin with the data field says nothing; a data line may do without the blank. */
  lemma OtherLines(env: Env, s: Stream, line: string, e: string)
    ensures |line| < 5 || line[..5] != "data:" ==> OnLine(env, s, line) == s
    ensures (e == "" || (e[0] != ' ' && e[|e| - 1] != '\r')) ==> OnLine(env, s, "data:" + e) == OnEvent(env, s, e)
  {
    if |line| > 5 { assert line[..|line| - 1][..5] == line[..5]; }
    assert ("data:" + e)[..5] == "data:" && ("data:" + e)[5..] == e;
    hide OnEvent;
  }

  /** The upstream reports an error: any error member, or a code other than null, the empty text, and 200 as
      text or number. */
  ghost predicate ErrorReported(j: Json) {
    j.Obj? && ("error" in j.fields || ("code" in j.fields && j.fields["code"] !in {Null, Str(""), Str("200"), Int(200), Float(200.0)}))
  }

  lemma ErrorExact(j: Json)
    ensures ReportsError(j) <==> ErrorReported(j)
  {
  }

  /** An event that ends nothing with an error: empty, the end mark, or data without an error report. */
  ghost predicate Readable(env: Env, e: string) {
    e == "" || e == "[DONE]" || (env.codec.parse(e).Some? && !ErrorReported(env.codec.parse(e).value))
  }

  /** The end mark, or what the provider takes for its last event. */
  ghost predicate Completing(env: Env, e: string) {
    e == "[DONE]" || (e != "" && env.codec.parse(e).Some? && env.strategy.complete(env.codec.parse(e).value) == Some(true))
  }

  /** The token an event carries. */
  ghost function Says(env: Env, e: string): seq<string> {
    if e == "" || e == "[DONE]" || env.strategy.token(e).None? then [] else [env.strategy.token(e).value]
  }

  /** The tokens of the events up to and including the first that completes. */
  ghost function Told(env: Env, events: seq<string>): seq<string> {
    if events == [] then []
    else Says(env, events[0]) + if Completing(env, events[0]) then [] else Told(env, events[1..])
  }

  /** No callback of this environment throws. */
  ghost predicate Calm(env: Env) {
    (forall ts :: !env.fails(ts)) && (forall j :: env.strategy.complete(j).Some?)
  }

  lemma EventMeans(env: Env, s: Stream, e: string)
    requires Calm(env) && s.error == ""
    ensures var r := OnEvent(env, s, e);
      && (r.error == "" <==> Readable(env, e))
      && (r.error == "" ==>
            && (r.completed <==> s.completed || Completing(env, e))
            && r.tokens == s.tokens + if s.completed then [] else Says(env, e))
      && (env.codec.parse(e).Some? && ErrorReported(env.codec.parse(e).value) && e != "" && e != "[DONE]" ==> r.error == REPORTED)
      && (env.codec.parse(e).None? && e != "" && e != "[DONE]" ==> r.error == INVALID)
  {
    if env.codec.parse(e).Some? { ErrorExact(env.codec.parse(e).value); }
    hide ReportsError, ErrorReported;
  }

  /** `r` is `s` after the events: without error exactly if each is readable; it has then completed exactly if
      it had or one of them completes, and has the tokens of the events up to that one besides its own. */
  ghost predicate Heeded(env: Env, s: Stream, events: seq<string>, r: Stream) {
    && (r.error == "" <==> forall e :: e in events ==> Readable(env, e))
    && (r.error == "" ==>
          && (r.completed <==> s.completed || exists e :: e in events && Completing(env, e))
          && r.tokens == s.tokens + if s.completed then [] else Told(env, events))
  }

  lemma HeededNone(env: Env, s: Stream)
    requires s.error == ""
    ensures Heeded(env, s, [], s)
  {
  }

  lemma HeededFirst(env: Env, s: Stream, e: string, rest: seq<string>, r: Stream)
    requires Calm(env) && s.error == ""
    requires var s1 := OnEvent(env, s, e); if s1.error == "" then Heeded(env, s1, rest, r) else r == s1
    ensures Heeded(env, s, [e] + rest, r)
  {
    var s1, all := OnEvent(env, s, e), [e] + rest;
    EventMeans(env, s, e);
    InFirst(e, rest);
    ToldFirst(env, e, rest);
    hide OnEvent, Readable, Completing, Calm, Told, Says;
    if s1.error == "" {
      AddedTokens(s.tokens, Says(env, e), Told(env, rest));
      AddedTokens(s.tokens, Says(env, e), []);
      AddedTokens(s.tokens, [], []);
    } else {
      assert e in all;
    }
  }

  lemma InFirst(e: string, rest: seq<string>)
    ensures forall x :: x in [e] + rest <==> x == e || x in rest
  {
  }

  lemma ToldFirst(env: Env, e: string, rest: seq<string>)
    ensures Told(env, [e] + rest) == Says(env, e) + if Completing(env, e) then [] else Told(env, rest)
  {
    assert ([e] + rest)[0] == e && ([e] + rest)[1..] == rest;
    hide Says, Completing;
  }

  lemma AddedTokens(a: seq<string>, b: seq<string>, c: seq<string>)
    ensures a + b + c == a + (b + c) && a + b + [] == a + b && b + [] == b
  {
  }

  /** A stream of events does what its events say, one after the other. */
  lemma {:induction false} StreamMeans(env: Env, s: Stream, events: seq<string>)
    requires Calm(env) && s.error == ""
    ensures Heeded(env, s, events, OnEvents(env, s, events))
    decreases |events|
  {
    hide OnEvent, Heeded, Calm;
    if events == [] {
      HeededNone(env, s);
    } else {
      var e, rest, s1 := events[0], events[1..], OnEvent(env, s, events[0]);
      if s1.error == "" { StreamMeans(env, s1, rest); }
      HeededFirst(env, s, e, rest, OnEvents(env, s1, rest));
      assert events == [e] + rest;
    }
  }
}
