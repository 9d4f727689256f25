/** What a connection does depends on the bytes it received, not on how they were cut into reads. */
module HttpSplit {
  import opened HttpText
  import opened HttpRequest
  import opened HttpContext
  import opened HttpServer

  lemma AdvanceStable(c: Context, a: string, b: string)
    requires Ready(c) && !Advance(c, a).Wait?
    ensures Advance(c, a + b) == Advance(c, a)
  {
    if c.state == ExpectBody {
      var n := c.request.contentLength;
      assert (a + b)[..n] == a[..n];
    } else {
      CrlfStable(a, b);
      var n := FindCRLF(a).value;
      assert (a + b)[..n] == a[..n];
    }
  }

  function Shift(n: nat, p: Parsed): Parsed { p.(used := n + p.used) }

  predicate Partial(p: Parsed) { p.ok && p.context.state != GotAll }

  /** Later input neither changes a finished or failed parse nor the place where an unfinished
      one resumes. */
  lemma {:induction false} ParseSplit(c: Context, a: string, b: string)
    requires Ready(c)
    ensures var p := Parse(c, a);
      Parse(c, a + b) == if Partial(p) then Shift(p.used, Parse(p.context, a[p.used..] + b)) else p
    decreases |a|
  {
    hide Advance, Ready;
    var m := Advance(c, a);
    if m.Wait? {
      assert a[0..] + b == a + b;
    } else {
      AdvanceStable(c, a, b);
      if m.Go? && m.next.state != GotAll {
        ParseSplit(m.next, a[m.used..], b);
        assert (a + b)[m.used..] == a[m.used..] + b;
        var p := Parse(m.next, a[m.used..]);
        assert a[m.used..][p.used..] == a[m.used + p.used..];
      }
    }
  }

  /** A round that ended the loop for lack of input is taken up again by more input; any other
      round is not affected by it. */
  lemma TurnSplit(handler: Request -> Reply, s: Conn, b: string)
    requires Ready(s.context) && !s.stopped
    ensures var t, p := Turn(handler, s), Parse(s.context, s.buf);
      Turn(handler, s.(buf := s.buf + b)) ==
        if Partial(p) then Turn(handler, t.conn.(buf := t.conn.buf + b))
        else if t.again then t.(conn := t.conn.(buf := t.conn.buf + b))
        else t
  {
    hide Parse, Ready, Decide;
    var p := Parse(s.context, s.buf);
    ParseSplit(s.context, s.buf, b);
    if Partial(p) {
      var rest := s.buf[p.used..] + b;
      var q := Parse(p.context, rest);
      assert (s.buf + b)[p.used + q.used..] == rest[q.used..];
    } else if p.ok {
      assert (s.buf + b)[p.used..] == s.buf[p.used..] + b;
    }
  }

  lemma {:induction false} DrainSplit(handler: Request -> Reply, s: Conn, b: string)
    requires ReadyConn(s)
    ensures var r := Drain(handler, s);
      Drain(handler, r.(buf := r.buf + b)) == Drain(handler, s.(buf := s.buf + b))
    decreases |s.buf|
  {
    if !s.stopped {
      TurnSplit(handler, s, b);
      var s2, t := s.(buf := s.buf + b), Turn(handler, s);
      var r := Drain(handler, s);
      if Partial(Parse(s.context, s.buf)) {
        Unfinished(handler, s);
        hide Turn, Parse, Ready;
        DrainTurn(handler, s2);
        DrainTurn(handler, t.conn.(buf := t.conn.buf + b));
      } else if t.again {
        hide Turn, Parse, Ready;
        DrainSplit(handler, t.conn, b);
      } else {
        Ended(handler, s);
      }
    }
  }

  lemma Unfinished(handler: Request -> Reply, s: Conn)
    requires Ready(s.context) && !s.stopped && Partial(Parse(s.context, s.buf))
    ensures var t := Turn(handler, s);
      !t.again && !t.conn.stopped && Ready(t.conn.context)
  {
  }

  lemma Ended(handler: Request -> Reply, s: Conn)
    requires Ready(s.context) && !s.stopped && !Partial(Parse(s.context, s.buf)) && !Turn(handler, s).again
    ensures Turn(handler, s).conn == Stopped(Turn(handler, s).conn)
  {
  }

  /** Two reads do what one read of both chunks does. */
  lemma FeedTwo(handler: Request -> Reply, s: Conn, a: string, b: string)
    requires ReadyConn(s)
    ensures Feed(handler, Feed(handler, s, a), b) == Feed(handler, s, a + b)
  {
    var t := s.(buf := s.buf + a);
    assert s.buf + a + b == s.buf + (a + b);
    assert Feed(handler, s, a) == Drain(handler, t);
    hide Drain, ReadyConn;
    DrainSplit(handler, t, b);
  }

  function FeedAll(handler: Request -> Reply, s: Conn, chunks: seq<string>): (r: Conn)
    requires ReadyConn(s)
    ensures ReadyConn(r)
    decreases |chunks|
  {
    if chunks == [] then s else FeedAll(handler, Feed(handler, s, chunks[0]), chunks[1..])
  }

  lemma {:induction false} FeedAllOnce(handler: Request -> Reply, s: Conn, chunks: seq<string>)
    requires ReadyConn(s) && chunks != []
    ensures FeedAll(handler, s, chunks) == Feed(handler, s, Flatten(chunks))
    decreases |chunks|
  {
    var s1 := Feed(handler, s, chunks[0]);
    if |chunks| == 1 {
      assert chunks[1..] == [] && Flatten(chunks) == chunks[0] + "" == chunks[0];
    } else {
      FeedAllOnce(handler, s1, chunks[1..]);
      FeedTwo(handler, s, chunks[0], Flatten(chunks[1..]));
    }
  }

  /** For a handler that decides by the request alone, any two ways of cutting the same bytes
      into reads dispatch the same requests in the same order and leave the connection in the
      same state: waiting at the same point, stopped, or stopped after a 400. */
  lemma ChunkIndependence(handler: Request -> Reply, xs: seq<string>, ys: seq<string>)
    requires Flatten(xs) == Flatten(ys)
    ensures FeedAll(handler, NEW_CONN, xs) == FeedAll(handler, NEW_CONN, ys)
  {
    Fed(handler, xs);
    Fed(handler, ys);
  }

  lemma Fed(handler: Request -> Reply, xs: seq<string>)
    ensures FeedAll(handler, NEW_CONN, xs) == Feed(handler, NEW_CONN, Flatten(xs))
  {
    if xs == [] {
      DrainEmpty(handler, NEW_CONN);
    } else {
      FeedAllOnce(handler, NEW_CONN, xs);
    }
  }
}
