/** What holds of every request a connection dispatches, and of a connection that has stopped. */
module HttpDispatch {
  import opened Optional
  import opened HttpText
  import opened HttpRequest
  import opened HttpContext
  import opened HttpServer
  import opened HttpSplit

  predicate HeadOk(r: Request) {
    r.verb != Invalid && r.verb != Head && (r.version == "HTTP/1.1" || r.version == "HTTP/1.0")
  }

  /** A whole request: its body is as long as its headers say, and no transfer coding was announced. */
  predicate Whole(r: Request) { HeadOk(r) && BodyLength(r) == Some(|r.body|) && r.contentLength == |r.body| }

  predicate ContextOk(c: Context) {
    match c.state
    case ExpectRequestLine => true
    case ExpectHeaders => HeadOk(c.request) && c.request.body == "" && c.request.contentLength == 0
    case ExpectBody => HeadOk(c.request) && c.request.body == "" && BodyLength(c.request) == Some(c.request.contentLength)
    case GotAll => Whole(c.request)
  }

  predicate AllWhole(s: Conn) { forall i :: 0 <= i < |s.dispatched| ==> Whole(s.dispatched[i]) }

  lemma AdvanceOk(c: Context, data: string)
    requires Ready(c) && ContextOk(c) && Advance(c, data).Go?
    ensures ContextOk(Advance(c, data).next)
  {
    hide Accumulate, ParseQuery, Find, Lower, Trim, Token, FieldText;
    if c.state == ExpectRequestLine {
      LineOk(data[..FindCRLF(data).value]);
    }
  }

  lemma LineOk(line: string)
    requires RequestLine(line).Some?
    ensures var r := RequestLine(line).value; HeadOk(r) && r.body == "" && r.contentLength == 0
  {
    hide ParseQuery, Find;
  }

  lemma {:induction false} ParseOk(c: Context, data: string)
    requires Ready(c) && ContextOk(c)
    ensures Parse(c, data).ok ==> ContextOk(Parse(c, data).context)
    decreases |data|
  {
    hide Advance, ContextOk, Ready;
    var m := Advance(c, data);
    if m.Go? {
      AdvanceOk(c, data);
      if m.next.state != GotAll { ParseOk(m.next, data[m.used..]); }
    }
  }

  /** A stopped connection has given its one error response if any; a running one has given none. */
  predicate ConnOk(s: Conn) {
    AllWhole(s) && (!s.stopped ==> ContextOk(s.context) && s.errors == 0) && s.errors <= 1
  }

  lemma TurnOk(handler: Request -> Reply, s: Conn)
    requires Ready(s.context) && !s.stopped && ConnOk(s)
    ensures ConnOk(Turn(handler, s).conn)
  {
    hide Parse, Whole, Decide;
    ParseOk(s.context, s.buf);
  }

  lemma {:induction false} DrainOk(handler: Request -> Reply, s: Conn)
    requires ReadyConn(s) && ConnOk(s)
    ensures ConnOk(Drain(handler, s))
    decreases |s.buf|
  {
    hide Turn, ContextOk, Whole;
    if !s.stopped {
      TurnOk(handler, s);
      var t := Turn(handler, s);
      if t.again { DrainOk(handler, t.conn); }
    }
  }

  lemma {:induction false} FeedAllOk(handler: Request -> Reply, s: Conn, chunks: seq<string>)
    requires ReadyConn(s) && ConnOk(s)
    ensures ConnOk(FeedAll(handler, s, chunks))
    decreases |chunks|
  {
    hide Drain, ContextOk, Whole;
    if chunks != [] {
      DrainOk(handler, s.(buf := s.buf + chunks[0]));
      FeedAllOk(handler, Feed(handler, s, chunks[0]), chunks[1..]);
    }
  }

  /** Whatever bytes arrive, in whatever reads: a dispatched request has a known method and version,
      never a Transfer-Encoding field, and a body exactly as long as its Content-Length, which is then
      all digits and at most 10485760; without one the body is empty and the method neither POST nor
      PUT. The connection gives at most one error response, and only when it stops. */
  lemma DispatchedWhole(handler: Request -> Reply, chunks: seq<string>, i: nat)
    requires i < |FeedAll(handler, NEW_CONN, chunks).dispatched|
    ensures var s := FeedAll(handler, NEW_CONN, chunks); var r := s.dispatched[i];
      && HeadOk(r) && "transfer-encoding" !in r.headers && |r.body| <= 10485760
      && (if "content-length" in r.headers
          then var t := r.headers["content-length"]; t != "" && AllDigits(t) && Value(t) == |r.body|
          else r.body == "" && r.verb != Post && r.verb != Put)
      && s.errors <= 1 && (s.errors == 1 ==> s.stopped)
  {
    FeedAllOk(handler, NEW_CONN, chunks);
    var r := FeedAll(handler, NEW_CONN, chunks).dispatched[i];
    assert Whole(r);
    if "content-length" in r.headers { ContentLengthExact(r); }
    hide FeedAll, Accumulate;
  }

  /** A stopped connection dispatches and answers nothing more. */
  lemma {:induction false} StopIsFinal(handler: Request -> Reply, s: Conn, chunks: seq<string>)
    requires s.stopped
    ensures var r := FeedAll(handler, s, chunks);
      r.stopped && r.dispatched == s.dispatched && r.errors == s.errors
    decreases |chunks|
  {
    if chunks != [] { StopIsFinal(handler, Feed(handler, s, chunks[0]), chunks[1..]); }
  }
}
