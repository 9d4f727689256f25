/** One connection: pipelined dispatch, the permanent stop flag, and independence of how the
    byte stream is split into reads. */
module HttpServer {
  import opened HttpText
  import opened HttpRequest
  import opened HttpContext

  // ---- Closing decision -----------------------------------------------------------------------------------

  function Pieces(s: string): (r: seq<string>)
    ensures r != []
  {
    var n := Find(s, ',');
    if n < |s| then [s[..n]] + Pieces(s[n + 1..]) else [s]
  }

  predicate Names(pieces: seq<string>, expected: string) {
    exists i :: 0 <= i < |pieces| && Lower(Trim(pieces[i])) == expected
  }

  /** The Connection value has this token among its comma-separated elements, in any case. */
  predicate HasToken(connection: string, expected: string) { Names(Pieces(connection), expected) }

  lemma NamesCons(p: string, rest: seq<string>, expected: string)
    ensures Names([p] + rest, expected) <==> Lower(Trim(p)) == expected || Names(rest, expected)
  {
    hide Lower, Trim;
    var all := [p] + rest;
    assert all[0] == p && forall i :: 0 <= i < |rest| ==> all[i + 1] == rest[i];
  }

  lemma NoNames(expected: string)
    ensures !Names([], expected)
  {
  }

  lemma TokenStep(s: string, expected: string)
    ensures var n := Find(s, ',');
      HasToken(s, expected) <==> Lower(Trim(s[..n])) == expected || (n < |s| && HasToken(s[n + 1..], expected))
  {
    hide Lower, Trim, Names;
    var n := Find(s, ',');
    if n < |s| {
      NamesCons(s[..n], Pieces(s[n + 1..]), expected);
    } else {
      NamesCons(s, [], expected);
      NoNames(expected);
      assert s[..n] == s && [s] + [] == [s];
    }
  }

  method HasConnectionToken(connection: string, expected: string) returns (found: bool)
    requires expected != ""
    ensures found == HasToken(connection, expected)
  {
    var begin := 0;
    assert connection[0..] == connection;
    while begin < |connection|
      invariant 0 <= begin <= |connection|
      invariant HasToken(connection, expected) == HasToken(connection[begin..], expected)
    {
      var rest := connection[begin..];
      var comma := Find(rest, ',');
      TokenStep(rest, expected);
      var token := Trim(rest[..comma]);
      if token != "" && Lower(token) == expected { return true; }
      if comma == |rest| { return false; }
      assert rest[comma + 1..] == connection[begin + comma + 1..];
      begin := begin + comma + 1;
    }
    TokenStep("", expected);
    return false;
  }

  /** What a handler leaves behind: a response with its close flag, a stream it took over, or an
      exception that escaped. */
  datatype Reply = Normal(closes: bool) | Streaming | Raises

  datatype Decision = KeepOpen | Finish | Fail

  function Header(req: Request, name: string): string {
    if name in req.headers then req.headers[name] else ""
  }

  predicate MustClose(req: Request) {
    HasToken(Header(req, "connection"), "close") ||
    (req.version == "HTTP/1.0" && !HasToken(Header(req, "connection"), "keep-alive"))
  }

  function Decide(handler: Request -> Reply, req: Request): Decision {
    match handler(req)
    case Raises => Fail
    case Streaming => Finish
    case Normal(closes) => if MustClose(req) || closes then Finish else KeepOpen
  }

  // ---- The connection -----------------------------------------------------------------------------------------

  /** `errors` counts the 400 responses; a stopped connection has no parser state left. */
  datatype Conn = Conn(context: Context, buf: string, stopped: bool, dispatched: seq<Request>, errors: nat)

  const NEW_CONN := Conn(NEW_CONTEXT, "", false, [], 0)

  predicate ReadyConn(s: Conn) { !s.stopped ==> Ready(s.context) }

  function Stopped(s: Conn): Conn { s.(context := NEW_CONTEXT, buf := "", stopped := true) }

  datatype Turned = Turned(conn: Conn, again: bool)

  /** One round of the loop: parse, and dispatch if a request is complete. */
  function Turn(handler: Request -> Reply, s: Conn): (t: Turned)
    requires Ready(s.context) && !s.stopped
    ensures ReadyConn(t.conn) && (t.again ==> !t.conn.stopped && |t.conn.buf| < |s.buf|)
  {
    var p := Parse(s.context, s.buf);
    if !p.ok then Turned(Stopped(s).(errors := s.errors + 1), false)
    else if p.context.state != GotAll then Turned(s.(context := p.context, buf := s.buf[p.used..]), false)
    else
      var s1 := s.(context := NEW_CONTEXT, buf := s.buf[p.used..], dispatched := s.dispatched + [p.context.request]);
      match Decide(handler, p.context.request)
      case KeepOpen => Turned(s1, true)
      case Finish => Turned(Stopped(s1), false)
      case Fail => Turned(Stopped(s1).(errors := s.errors + 1), false)
  }

  /** onMessage on the buffered input. */
  function Drain(handler: Request -> Reply, s: Conn): (r: Conn)
    requires ReadyConn(s)
    ensures ReadyConn(r)
    decreases |s.buf|
  {
    if s.stopped then Stopped(s)
    else
      var t := Turn(handler, s);
      if t.again then Drain(handler, t.conn) else t.conn
  }

  lemma DrainTurn(handler: Request -> Reply, s: Conn)
    requires Ready(s.context) && !s.stopped
    ensures var t := Turn(handler, s);
      Drain(handler, s) == if t.again then Drain(handler, t.conn) else t.conn
  {
  }

  lemma DrainEmpty(handler: Request -> Reply, s: Conn)
    requires Ready(s.context) && !s.stopped && s.buf == ""
    ensures Drain(handler, s) == s
  {
    assert Parse(s.context, "") == Parsed(true, s.context, 0);
  }

  /** One read of the socket. */
  function Feed(handler: Request -> Reply, s: Conn, chunk: string): (r: Conn)
    requires ReadyConn(s)
    ensures ReadyConn(r)
  {
    Drain(handler, s.(buf := s.buf + chunk))
  }

  class Connection {
    const context: HttpContext
    const buf: Buffer
    var connected: bool
    var dispatched: seq<Request>
    var errors: nat

    ghost predicate Valid()
      reads this, context, buf
    {
      connected == !context.processingStopped && (connected ==> Ready(context.View()))
    }

    function View(): Conn
      reads this, context, buf
    {
      Conn(if context.processingStopped then NEW_CONTEXT else context.View(), buf.data, context.processingStopped,
           dispatched, errors)
    }

    constructor ()
      ensures Valid() && View() == NEW_CONN && fresh(context) && fresh(buf)
    {
      context := new HttpContext();
      buf := new Buffer();
      connected, dispatched, errors := true, [], 0;
    }

    /** Stops for good: drops the buffered input and shuts the connection down. */
    method StopAll()
      modifies this, context, buf
      ensures Valid() && View() == Stopped(old(View()))
    {
      context.StopProcessing();
      buf.Retrieve(|buf.data|);
      connected := false;
    }

    method Serve(handler: Request -> Reply) returns (again: bool)
      requires Valid() && connected
      modifies this, context, buf
      ensures Valid() && Turned(View(), again) == Turn(handler, old(View()))
    {
      var ok := context.ParseRequest(buf);
      if !ok {
        StopAll();
        errors := errors + 1;
        return false;
      }
      if context.state != GotAll { return false; }
      var req := context.request;
      dispatched := dispatched + [req];
      var decision := Decide(handler, req);
      context.Reset();
      if decision != KeepOpen {
        StopAll();
        if decision == Fail { errors := errors + 1; }
      }
      return decision == KeepOpen;
    }

    method OnMessage(handler: Request -> Reply, chunk: string)
      requires Valid()
      modifies this, context, buf
      ensures Valid() && View() == Feed(handler, old(View()), chunk)
    {
      buf.Append(chunk);
      if context.processingStopped {
        buf.Retrieve(|buf.data|);
      } else {
        ServeAll(handler);
      }
    }

    method ServeAll(handler: Request -> Reply)
      requires Valid() && connected
      modifies this, context, buf
      ensures Valid() && View() == Drain(handler, old(View()))
    {
      hide Turn, Drain;
      var again := true;
      while again && |buf.data| > 0
        invariant Valid() && (again ==> connected)
        invariant Drain(handler, old(View())) == if again then Drain(handler, View()) else View()
        decreases again, |buf.data|
      {
        DrainTurn(handler, View());
        again := Serve(handler);
      }
      if again { DrainEmpty(handler, View()); }
    }
  }
}
