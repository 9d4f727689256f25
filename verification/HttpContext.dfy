/** The incremental parser, and the dispatch loop of one connection. */
module HttpContext {
  import opened Optional
  import opened HttpText
  import opened HttpRequest

  datatype State = ExpectRequestLine | ExpectHeaders | ExpectBody | GotAll

  datatype Context = Context(state: State, request: Request)

  const NEW_CONTEXT := Context(ExpectRequestLine, FRESH)

  /** The states in which parsing may continue: not finished, and a body is never empty. */
  predicate Ready(c: Context) {
    c.state != GotAll && (c.state == ExpectBody ==> c.request.contentLength > 0)
    && (c.state == ExpectRequestLine ==> c.request == FRESH)
  }

  // ---- One line or body at a time ---------------------------------------------------------------------------

  /** Wait for more input, reject after consuming `used` bytes, or go on after `used` bytes. */
  datatype Move = Wait | Bad(used: nat) | Go(next: Context, used: nat)

  function HeaderLine(c: Context, line: string): Move {
    var colon := Find(line, ':');
    if colon < |line| then
      match AddHeader(c.request, line, colon)
      case None => Bad(0)
      case Some(req) => Go(c.(request := req), |line| + 2)
    else if line == "" then
      match BodyLength(c.request)
      case None => Bad(0)
      case Some(n) =>
        if "content-length" in c.request.headers
        then Go(Context(if n > 0 then ExpectBody else GotAll, c.request.(contentLength := n)), 2)
        else Go(c.(state := GotAll), 2)
    else Bad(|line| + 2)
  }

  function Advance(c: Context, data: string): (m: Move)
    requires Ready(c)
    ensures m.Go? ==> 0 < m.used <= |data| && (m.next.state != GotAll ==> Ready(m.next))
    ensures m.Bad? ==> m.used <= |data|
  {
    if c.state == ExpectBody then
      if |data| < c.request.contentLength then Wait
      else Go(Context(GotAll, c.request.(body := data[..c.request.contentLength])), c.request.contentLength)
    else
      match FindCRLF(data)
      case None => Wait
      case Some(n) =>
        if c.state == ExpectRequestLine then
          match RequestLine(data[..n])
          case None => Bad(0)
          case Some(req) => Go(Context(ExpectHeaders, req), n + 2)
        else HeaderLine(c, data[..n])
  }

  datatype Parsed = Parsed(ok: bool, context: Context, used: nat)

  /** parseRequest: as far as the data goes, up to the end of one request. */
  function Parse(c: Context, data: string): (p: Parsed)
    requires Ready(c)
    ensures p.used <= |data| && (p.ok ==> p.context.state == GotAll || Ready(p.context))
    ensures p.ok && p.context.state == GotAll ==> p.used > 0
    decreases |data|
  {
    match Advance(c, data)
    case Wait => Parsed(true, c, 0)
    case Bad(n) => Parsed(false, c, n)
    case Go(next, n) =>
      if next.state == GotAll then Parsed(true, next, n)
      else
        var p := Parse(next, data[n..]);
        p.(used := n + p.used)
  }

  class Buffer {
    var data: string

    constructor ()
      ensures data == ""
    {
      data := "";
    }

    method Append(chunk: string)
      modifies this
      ensures data == old(data) + chunk
    {
      data := data + chunk;
    }

    method Retrieve(n: nat)
      requires n <= |data|
      modifies this
      ensures data == old(data)[n..]
    {
      data := data[n..];
    }
  }

  class HttpContext {
    var state: State
    var request: Request
    var processingStopped: bool

    function View(): Context
      reads this
    {
      Context(state, request)
    }

    constructor ()
      ensures View() == NEW_CONTEXT && !processingStopped
    {
      state, request, processingStopped := ExpectRequestLine, FRESH, false;
    }

    method Reset()
      modifies this
      ensures View() == NEW_CONTEXT && processingStopped == old(processingStopped)
    {
      state, request := ExpectRequestLine, FRESH;
    }

    method StopProcessing()
      modifies this
      ensures processingStopped && View() == old(View())
    {
      processingStopped := true;
    }

    /** The header branch of the loop for the line ending at `crlf`. */
    method TakeHeader(data: string, crlf: nat) returns (m: Move)
      requires crlf <= |data|
      ensures m == HeaderLine(View(), data[..crlf])
    {
      var line := data[..crlf];
      var colon := Find(line, ':');
      if colon < |line| {
        var added := AddHeaderField(request, line, colon);
        return if added.None? then Bad(0) else Go(Context(state, added.value), |line| + 2);
      }
      if line != "" { return Bad(|line| + 2); }
      if "transfer-encoding" in request.headers { return Bad(0); }
      if "content-length" in request.headers {
        var text := request.headers["content-length"];
        if text == "" { return Bad(0); }
        var length := ParseBounded(text, MAX_BODY);
        AccumulateExact(text, MAX_BODY);
        if length.None? { return Bad(0); }
        return Go(Context(if length.value > 0 then ExpectBody else GotAll, request.(contentLength := length.value)), 2);
      }
      if request.verb == Post || request.verb == Put { return Bad(0); }
      return Go(Context(GotAll, request), 2);
    }

    /** One iteration of the parser loop. */
    method TakeOne(buf: Buffer) returns (m: Move)
      requires Ready(View())
      modifies this, buf
      ensures m == Advance(old(View()), old(buf.data))
      ensures m.Go? ==> View() == m.next
      ensures m.Wait? ==> View() == old(View())
      ensures buf.data == old(buf.data)[(if m.Wait? then 0 else m.used)..]
      ensures processingStopped == old(processingStopped)
    {
      if state == ExpectBody {
        if |buf.data| < request.contentLength { return Wait; }
        var n := request.contentLength;
        request := request.(body := buf.data[..n]);
        buf.Retrieve(n);
        state := GotAll;
        return Go(Context(state, request), n);
      }
      var crlf := FindCRLF(buf.data);
      if crlf.None? { return Wait; }
      if state == ExpectRequestLine {
        var parsed := ProcessRequestLine(buf.data[..crlf.value]);
        if parsed.None? { return Bad(0); }
        state, request := ExpectHeaders, parsed.value;
        m := Go(Context(state, request), crlf.value + 2);
      } else {
        m := TakeHeader(buf.data, crlf.value);
        if m.Go? { state, request := m.next.state, m.next.request; }
      }
      buf.Retrieve(m.used);
    }

    /** The resumable parser loop; it is never entered with a finished request. */
    method ParseRequest(buf: Buffer) returns (ok: bool)
      requires Ready(View())
      modifies this, buf
      ensures var p := Parse(old(View()), old(buf.data));
        && ok == p.ok && buf.data == old(buf.data)[p.used..] && (ok ==> View() == p.context)
      ensures processingStopped == old(processingStopped)
    {
      ghost var data := buf.data;
      ghost var done: nat := 0;
      while true
        invariant Ready(View()) && done <= |data| && buf.data == data[done..]
        invariant processingStopped == old(processingStopped)
        invariant var p, q := Parse(old(View()), data), Parse(View(), buf.data);
          p.ok == q.ok && p.context == q.context && p.used == done + q.used
        decreases |buf.data|
      {
        var m := TakeOne(buf);
        if m.Wait? { return true; }
        if m.Bad? { return false; }
        done := done + m.used;
        if m.next.state == GotAll { return true; }
      }
    }
  }
}
