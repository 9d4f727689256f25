/** One streamed question, from the upstream bytes to the history and what the caller is told. */
module ChatStream {
  import opened Json
  import opened Optional
  import opened HttpText
  import opened Sse
  import opened ChatMessage
  import opened ChatHistory

  // ---- The transfer ---------------------------------------------------------------------------------------------

  /** How the transfer ended: a transport error, or a response status. */
  datatype Transfer = Transfer(curlError: Option<string>, status: nat)

  /** The error reported once the transfer has run; None reports completion. */
  function Report(s: Stream, t: Transfer): (error: Option<string>)
    ensures error.None? <==> s.error == "" && t.curlError.None? && 200 <= t.status < 300 && s.completed
  {
    if s.error != "" then Some(s.error)
    else if t.curlError.Some? then Some("curl error: " + t.curlError.value)
    else if t.status < 200 || t.status >= 300 then Some("Upstream HTTP error: " + Decimal(t.status))
    else if !s.completed then Some("Model stream ended before completion")
    else None
  }

  // ---- The answer -------------------------------------------------------------------------------------------------

  /** Where the answer comes from: a tool-using model asked in one piece, the local model, or a
      remote stream. None and a present error stand for an exception. */
  datatype Source =
    | Mcp(answer: Option<string>)
    | Local(tokens: seq<string>, error: Option<string>)
    | Remote(setupError: Option<string>, chunks: seq<string>, transfer: Transfer)

  /** What the caller's callbacks see. */
  datatype Notice = Token(text: string) | Done(text: string) | Failed

  datatype Outcome = Outcome(chat: Chat, published: Option<Exchange>, notices: seq<Notice>)

  /** The longest prefix of the tokens that is delivered, and whether the callback threw on it. */
  function Delivered(fails: seq<string> -> bool, done: seq<string>, todo: seq<string>): (r: (seq<string>, bool))
    ensures done <= r.0 <= done + todo && (!r.1 ==> r.0 == done + todo)
    decreases |todo|
  {
    if todo == [] then (done, false)
    else
      var now := done + [todo[0]];
      if fails(now) then (now, true) else Delivered(fails, now, todo[1..])
  }

  /** The tokens delivered, and whether the source failed. */
  function Answer(env: Env, source: Source): (seq<string>, bool)
    requires !source.Mcp?
  {
    match source
    case Local(tokens, error) =>
      var d := Delivered(env.fails, [], tokens);
      (d.0, d.1 || error.Some?)
    case Remote(setup, chunks, transfer) =>
      if setup.Some? then ([], true)
      else
        var s := WriteAll(env, NEW_STREAM, chunks);
        (s.tokens, Report(s, transfer).Some?)
  }

  function Notices(tokens: seq<string>): (r: seq<Notice>)
    ensures |r| == |tokens| && forall i :: 0 <= i < |r| ==> r[i] == Token(tokens[i])
  {
    if tokens == [] then [] else [Token(tokens[0])] + Notices(tokens[1..])
  }

  /** Commits a complete answer. */
  function Close(codec: Codec, c: Chat, q: Request, answer: string): Commit {
    if answer == "" then Refused else CommitExchange(codec, c, q.(answer := answer))
  }

  /** chatStream. `doneFails` says whether the completion callback throws. */
  function ChatStream(env: Env, c: Chat, q: Request, source: Source, doneFails: bool): Outcome {
    var finish := if doneFails then [Failed] else [];
    if !Canonical(c) then Outcome(c, None, [Failed])
    else if source.Mcp? then
      if source.answer.None? then Outcome(c, None, [Failed])
      else
        var text := source.answer.value;
        match Close(env.codec, c, q, text)
        case Refused => Outcome(c, None, [Failed])
        case Committed(chat, x) =>
          if env.fails([text]) then Outcome(chat, Some(x), [Token(text), Failed])
          else Outcome(chat, Some(x), [Token(text), Done(text)] + finish)
    else
      var a := Answer(env, source);
      if a.1 then Outcome(c, None, Notices(a.0) + [Failed])
      else
        match Close(env.codec, c, q, Flatten(a.0))
        case Refused => Outcome(c, None, Notices(a.0) + [Failed])
        case Committed(chat, x) => Outcome(chat, Some(x), Notices(a.0) + [Done(Flatten(a.0))] + finish)
  }

  // ---- The procedure ------------------------------------------------------------------------------------------------

  method DeliverTokens(fails: seq<string> -> bool, tokens: seq<string>) returns (delivered: seq<string>, failed: bool)
    ensures (delivered, failed) == Delivered(fails, [], tokens)
  {
    delivered, failed := [], false;
    var i := 0;
    while i < |tokens| && !failed
      invariant 0 <= i <= |tokens|
      invariant Delivered(fails, [], tokens) == if failed then (delivered, true) else Delivered(fails, delivered, tokens[i..])
    {
      assert tokens[i..][1..] == tokens[i + 1..];
      delivered := delivered + [tokens[i]];
      failed := fails(delivered);
      i := i + 1;
    }
  }

  method RunTransfer(env: Env, chunks: seq<string>) returns (state: StreamState)
    ensures fresh(state) && state.View() == WriteAll(env, NEW_STREAM, chunks)
  {
    state := new StreamState();
    var i := 0;
    while i < |chunks| && state.error == ""
      invariant 0 <= i <= |chunks| && fresh(state)
      invariant WriteAll(env, state.View(), chunks[i..]) == WriteAll(env, NEW_STREAM, chunks)
    {
      assert chunks[i..][1..] == chunks[i + 1..];
      var ok := state.OnWrite(env, chunks[i]);
      i := i + 1;
    }
    if state.error != "" { WriteAborted(env, state.View(), chunks[i..]); }
  }

  method Collect(env: Env, source: Source) returns (tokens: seq<string>, failed: bool)
    requires !source.Mcp?
    ensures (tokens, failed) == Answer(env, source)
  {
    match source {
      case Local(all, error) =>
        tokens, failed := DeliverTokens(env.fails, all);
        failed := failed || error.Some?;
      case Remote(setup, chunks, transfer) =>
        if setup.Some? { return [], true; }
        var state := RunTransfer(env, chunks);
        return state.tokens, Report(state.View(), transfer).Some?;
    }
  }

  /** Refuses an empty answer, otherwise commits. */
  method CloseExchange(helper: AIHelper, codec: Codec, q: Request, answer: string) returns (published: Option<Exchange>)
    modifies helper
    ensures match Close(codec, old(helper.View()), q, answer)
            case Refused => published.None? && helper.View() == old(helper.View())
            case Committed(chat, x) => published == Some(x) && helper.View() == chat
  {
    if answer == "" { return None; }
    published := helper.Commit(codec, q.(answer := answer));
  }

  method StreamMcp(helper: AIHelper, env: Env, q: Request, answer: Option<string>, doneFails: bool)
    returns (published: Option<Exchange>, notices: seq<Notice>)
    modifies helper
    ensures Canonical(old(helper.View())) ==>
      Outcome(helper.View(), published, notices) == ChatStream(env, old(helper.View()), q, Mcp(answer), doneFails)
  {
    published := None;
    if answer.Some? { published := CloseExchange(helper, env.codec, q, answer.value); }
    if published.None? { return published, [Failed]; }
    notices := [Token(answer.value)];
    if env.fails([answer.value]) { return published, notices + [Failed]; }
    notices := notices + [Done(answer.value)];
    if doneFails { notices := notices + [Failed]; }
  }

  method Stream(helper: AIHelper, env: Env, q: Request, source: Source, doneFails: bool)
    returns (published: Option<Exchange>, notices: seq<Notice>)
    modifies helper
    ensures Outcome(helper.View(), published, notices) == ChatStream(env, old(helper.View()), q, source, doneFails)
  {
    var canonical := helper.ValidateCanonicalHistory();
    if !canonical { return None, [Failed]; }
    if source.Mcp? {
      published, notices := StreamMcp(helper, env, q, source.answer, doneFails);
      return;
    }
    var tokens, failed := Collect(env, source);
    notices := Notices(tokens);
    if failed { return None, notices + [Failed]; }
    published := CloseExchange(helper, env.codec, q, Flatten(tokens));
    if published.None? { return None, notices + [Failed]; }
    notices := notices + [Done(Flatten(tokens))];
    if doneFails { notices := notices + [Failed]; }
  }

  // ---- What a run guarantees -------------------------------------------------------------------------------------------

  /** Tokens, then one final report. */
  predicate OneReport(notices: seq<Notice>) {
    notices != [] && !notices[|notices| - 1].Token? && forall i :: 0 <= i < |notices| - 1 ==> notices[i].Token?
  }

  predicate SaysDone(notices: seq<Notice>) { exists i :: 0 <= i < |notices| && notices[i].Done? }

  /** The text of all tokens shown. */
  function Heard(notices: seq<Notice>): string {
    if notices == [] then ""
    else (if notices[0].Token? then notices[0].text else "") + Heard(notices[1..])
  }

  lemma {:induction false} HeardNotices(tokens: seq<string>, rest: seq<Notice>)
    requires forall i :: 0 <= i < |rest| ==> !rest[i].Token?
    ensures Heard(Notices(tokens) + rest) == Flatten(tokens)
  {
    var all := Notices(tokens) + rest;
    if tokens == [] {
      HeardNothing(rest);
      assert all == rest;
    } else {
      HeardNotices(tokens[1..], rest);
      assert all[0] == Token(tokens[0]) && all[1..] == Notices(tokens[1..]) + rest;
    }
  }

  lemma {:induction false} HeardNothing(rest: seq<Notice>)
    requires forall i :: 0 <= i < |rest| ==> !rest[i].Token?
    ensures Heard(rest) == ""
  {
    if rest != [] { HeardNothing(rest[1..]); }
  }

  /** The shape of every run: nothing committed and one failure, or one exchange committed. */
  lemma Shapes(env: Env, c: Chat, q: Request, source: Source, doneFails: bool)
    ensures var o := ChatStream(env, c, q, source, doneFails);
      if o.published.None?
      then o.chat == c && exists ts: seq<string> :: o.notices == Notices(ts) + [Failed]
      else exists ts: seq<string> ::
        && Flatten(ts) != "" && Canonical(c)
        && CommitExchange(env.codec, c, q.(answer := Flatten(ts))) == Committed(o.chat, o.published.value)
        && o.notices == Notices(ts) + (
          if source.Mcp? && env.fails(ts) then [Failed]
          else [Done(Flatten(ts))] + if doneFails then [Failed] else [])
  {
    hide CommitExchange, Delivered, WriteAll;
    var o := ChatStream(env, c, q, source, doneFails);
    if !Canonical(c) {
      assert o.notices == Notices([]) + [Failed];
    } else if source.Mcp? {
      if o.published.None? {
        assert o.notices == Notices([]) + [Failed];
      } else {
        var ts := [source.answer.value];
        assert Flatten(ts) == source.answer.value + "" == source.answer.value && Notices(ts) == [Token(source.answer.value)];
      }
    } else {
      var ts := Answer(env, source).0;
      assert o.published.None? ==> o.notices == Notices(ts) + [Failed];
      if o.published.Some? {
        ShapesStream(env, c, q, source, doneFails, ts);
      }
    }
  }

  lemma ShapesStream(env: Env, c: Chat, q: Request, source: Source, doneFails: bool, ts: seq<string>)
    requires Canonical(c) && !source.Mcp? && ts == Answer(env, source).0
    requires ChatStream(env, c, q, source, doneFails).published.Some?
    ensures var o := ChatStream(env, c, q, source, doneFails);
      && Flatten(ts) != ""
      && CommitExchange(env.codec, c, q.(answer := Flatten(ts))) == Committed(o.chat, o.published.value)
      && o.notices == Notices(ts) + ([Done(Flatten(ts))] + if doneFails then [Failed] else [])
  {
    hide CommitExchange, Answer;
    var o := ChatStream(env, c, q, source, doneFails);
    var finish := if doneFails then [Failed] else [];
    assert o.notices == Notices(ts) + [Done(Flatten(ts))] + finish;
  }

  // ---- When completion is reported --------------------------------------------------------------------------------------

  /** The source delivers a whole answer: no exception, no throwing token callback, and for a remote
      stream an undisturbed transfer with a 2xx status that reached its completion mark. */
  ghost predicate Arrives(env: Env, source: Source) {
    match source
    case Mcp(answer) => answer.Some? && !env.fails([answer.value])
    case Local(tokens, error) => error.None? && forall i :: 0 < i <= |tokens| ==> !env.fails(tokens[..i])
    case Remote(setup, chunks, transfer) =>
      var s := WriteAll(env, NEW_STREAM, chunks);
      setup.None? && s.error == "" && transfer.curlError.None? && 200 <= transfer.status < 300 && s.completed
  }

  /** The text of a whole answer. */
  function FullText(env: Env, source: Source): string {
    match source
    case Mcp(answer) => if answer.Some? then answer.value else ""
    case Local(tokens, _) => Flatten(tokens)
    case Remote(_, chunks, _) => Flatten(WriteAll(env, NEW_STREAM, chunks).tokens)
  }

  /** The history can be continued, the answer arrives, and its exchange is accepted. */
  ghost predicate Completes(env: Env, c: Chat, q: Request, source: Source) {
    Canonical(c) && Arrives(env, source) && Close(env.codec, c, q, FullText(env, source)).Committed?
  }

  /** All tokens are delivered exactly if the callback accepts every prefix. */
  lemma {:induction false} DeliveredExactly(fails: seq<string> -> bool, done: seq<string>, todo: seq<string>)
    ensures !Delivered(fails, done, todo).1 <==> forall i :: 0 < i <= |todo| ==> !fails(done + todo[..i])
    decreases |todo|
  {
    if todo != [] {
      var now, rest := done + [todo[0]], todo[1..];
      assert todo[..1] == [todo[0]];
      DeliveredExactly(fails, now, rest);
      assert forall i :: 0 < i <= |rest| ==> now + rest[..i] == done + todo[..i + 1];
      assert forall i :: 1 < i <= |todo| ==> done + todo[..i] == now + rest[..i - 1];
    }
  }

  /** Where the callback throws, the tokens shown are those up to the first one it refuses, that one
      included. */
  lemma {:induction false} DeliveredUntil(fails: seq<string> -> bool, done: seq<string>, todo: seq<string>, n: nat)
    requires 0 < n <= |todo| && fails(done + todo[..n]) && forall i :: 0 < i < n ==> !fails(done + todo[..i])
    ensures Delivered(fails, done, todo) == (done + todo[..n], true)
    decreases |todo|
  {
    var now, rest := done + [todo[0]], todo[1..];
    assert todo[..1] == [todo[0]];
    if n > 1 {
      assert forall i :: 0 < i < n ==> now + rest[..i] == done + todo[..i + 1];
      assert now + rest[..n - 1] == done + todo[..n];
      DeliveredUntil(fails, now, rest, n - 1);
    }
  }

  lemma AnswerArrives(env: Env, source: Source)
    requires !source.Mcp?
    ensures !Answer(env, source).1 <==> Arrives(env, source)
    ensures Arrives(env, source) ==> Flatten(Answer(env, source).0) == FullText(env, source)
  {
    if source.Local? {
      var tokens := source.tokens;
      DeliveredExactly(env.fails, [], tokens);
      assert forall i :: 0 < i <= |tokens| ==> [] + tokens[..i] == tokens[..i];
      assert [] + tokens == tokens;
    }
  }

  /** Completion is reported exactly if the history is canonical, the answer arrives whole, and its
      exchange is committed. */
  lemma SaysDoneExactly(env: Env, c: Chat, q: Request, source: Source, doneFails: bool)
    ensures SaysDone(ChatStream(env, c, q, source, doneFails).notices) <==> Completes(env, c, q, source)
  {
    hide CommitExchange, Answer, Arrives, FullText;
    var notices := ChatStream(env, c, q, source, doneFails).notices;
    if source.Mcp? {
      ArrivesMcp(env, source);
      if Completes(env, c, q, source) { assert notices[1].Done?; }
    } else {
      AnswerArrives(env, source);
      if Completes(env, c, q, source) { assert notices[|Answer(env, source).0|].Done?; }
    }
  }

  lemma ArrivesMcp(env: Env, source: Source)
    requires source.Mcp?
    ensures Arrives(env, source) <==> source.answer.Some? && !env.fails([source.answer.value])
    ensures Arrives(env, source) ==> FullText(env, source) == source.answer.value
  {
  }

  /** Exactly one of completion and error is reported, and last, except when the completion callback
      is reached and throws: then an error follows it. */
  lemma ExactlyOneReport(env: Env, c: Chat, q: Request, source: Source, doneFails: bool)
    ensures OneReport(ChatStream(env, c, q, source, doneFails).notices) <==> !(doneFails && Completes(env, c, q, source))
  {
    SaysDoneExactly(env, c, q, source, doneFails);
    Shapes(env, c, q, source, doneFails);
    hide ChatStream, Completes;
    var o := ChatStream(env, c, q, source, doneFails);
    if o.published.Some? && SaysDone(o.notices) && doneFails {
      assert o.notices[|o.notices| - 2].Done?;
    }
  }

  /** With callbacks that do not throw, the history changes exactly on the runs that report
      completion, and then by the question and the text that was shown. */
  lemma HistoryFollowsReport(env: Env, c: Chat, q: Request, source: Source)
    requires forall ts :: !env.fails(ts)
    ensures var o := ChatStream(env, c, q, source, false);
      && OneReport(o.notices)
      && (SaysDone(o.notices) <==> o.chat != c) && (SaysDone(o.notices) <==> o.published.Some?)
      && (SaysDone(o.notices) ==>
            && Heard(o.notices) != "" && o.notices[|o.notices| - 1] == Done(Heard(o.notices))
            && CommitExchange(env.codec, c, q.(answer := Heard(o.notices))) == Committed(o.chat, o.published.value))
  {
    Shapes(env, c, q, source, false);
    hide ChatStream;
    var o := ChatStream(env, c, q, source, false);
    if o.published.Some? {
      var ts: seq<string> :| Flatten(ts) != ""
        && CommitExchange(env.codec, c, q.(answer := Flatten(ts))) == Committed(o.chat, o.published.value)
        && o.notices == Notices(ts) + ([Done(Flatten(ts))] + []);
      HeardNotices(ts, [Done(Flatten(ts))] + []);
      assert o.notices[|ts|].Done?;
    }
  }

  /** A committed exchange goes unreported exactly when the token callback throws on the single
      token of a tool-using model, whose answer is committed before it is shown. */
  lemma SilentCommit(env: Env, c: Chat, q: Request, source: Source, doneFails: bool)
    ensures var o := ChatStream(env, c, q, source, doneFails);
      (o.published.Some? && !SaysDone(o.notices)) <==>
        (source.Mcp? && source.answer.Some? && Canonical(c) && env.fails([source.answer.value]) &&
         Close(env.codec, c, q, source.answer.value).Committed?)
  {
    hide CommitExchange;
    var o := ChatStream(env, c, q, source, doneFails);
    if o.published.Some? && !(source.Mcp? && env.fails([source.answer.value])) {
      assert exists i :: 0 <= i < |o.notices| && o.notices[i].Done? by {
        if source.Mcp? {
          assert o.notices[1].Done?;
        } else {
          assert o.notices[|Answer(env, source).0|].Done?;
        }
      }
    }
  }

  /** The cuts between network writes change nothing the caller or the history can see. */
  lemma SameOutcome(env: Env, c: Chat, q: Request, xs: seq<string>, ys: seq<string>, setup: Option<string>, t: Transfer,
                    doneFails: bool)
    requires Flatten(xs) == Flatten(ys)
    ensures ChatStream(env, c, q, Remote(setup, xs, t), doneFails) == ChatStream(env, c, q, Remote(setup, ys, t), doneFails)
  {
    hide CommitExchange, WriteAll;
    ChunkIndependence(env, xs, ys);
    assert Answer(env, Remote(setup, xs, t)) == Answer(env, Remote(setup, ys, t));
  }
}
