/** The canonical text of a request, and the proof that parsing takes exactly that text off the
    input and returns the request it denotes. */
module HttpWire {
  import opened Optional
  import opened HttpText
  import opened HttpRequest
  import opened HttpContext
  import opened HttpServer
  import opened HttpSplit

  type Pair = (string, string)

  /** A request as its sender sees it. The length field is not listed: it follows from the body. */
  datatype Wire = Wire(verb: Method, path: string, query: seq<Pair>, version: string, fields: seq<Pair>, body: string)

  // ---- Text -------------------------------------------------------------------------------------------------

  function MethodText(m: Method): string {
    match m
    case Get => "GET"
    case Post => "POST"
    case Put => "PUT"
    case Delete => "DELETE"
    case Options => "OPTIONS"
    case Head => "HEAD"
    case Invalid => ""
  }

  function QueryText(query: seq<Pair>): string
    requires query != []
  {
    var pair := query[0].0 + "=" + query[0].1;
    if |query| == 1 then pair else pair + "&" + QueryText(query[1..])
  }

  function Target(w: Wire): string { w.path + if w.query == [] then "" else "?" + QueryText(w.query) }

  function StartLine(w: Wire): string { MethodText(w.verb) + " " + Target(w) + " " + w.version }

  function FieldLine(f: Pair): string { f.0 + ": " + f.1 }

  function FieldsText(fields: seq<Pair>): string {
    if fields == [] then "" else FieldLine(fields[0]) + "\r\n" + FieldsText(fields[1..])
  }

  /** POST and PUT always carry a length; other requests only with a body. */
  predicate Sized(w: Wire) { w.body != "" || w.verb == Post || w.verb == Put }

  function LengthFields(w: Wire): seq<Pair> { if Sized(w) then [("content-length", Decimal(|w.body|))] else [] }

  function Rest(w: Wire): string { FieldsText(w.fields) + (FieldsText(LengthFields(w)) + ("\r\n" + w.body)) }

  function Text(w: Wire): string { StartLine(w) + "\r\n" + Rest(w) }

  // ---- Meaning ------------------------------------------------------------------------------------------------

  function QueryMap(q: map<string, string>, pairs: seq<Pair>): map<string, string>
    decreases |pairs|
  {
    if pairs == [] then q else QueryMap(q[pairs[0].0 := pairs[0].1], pairs[1..])
  }

  function WithField(h: map<string, string>, f: Pair): map<string, string> {
    var key := Lower(f.0);
    h[key := if key == "connection" && key in h then h[key] + "," + f.1 else f.1]
  }

  function FieldMap(h: map<string, string>, fields: seq<Pair>): map<string, string>
    decreases |fields|
  {
    if fields == [] then h else FieldMap(WithField(h, fields[0]), fields[1..])
  }

  function Headers(w: Wire): map<string, string> {
    var h := FieldMap(map[], w.fields);
    if Sized(w) then h["content-length" := Decimal(|w.body|)] else h
  }

  function Meaning(w: Wire): Request {
    Request(w.verb, w.path, QueryMap(map[], w.query), w.version, Headers(w), w.body, |w.body|)
  }

  // ---- Validity -----------------------------------------------------------------------------------------------

  predicate Free(s: string, bad: string) { forall i :: 0 <= i < |s| ==> s[i] !in bad }

  predicate ValidField(f: Pair) {
    && Token(f.0) && Trimmed(f.1) && FieldText(f.1)
    && Lower(f.0) != "content-length" && Lower(f.0) != "transfer-encoding"
  }

  predicate ValidPair(p: Pair) { Free(p.0, "=& \r") && Free(p.1, "& \r") }

  predicate Valid(w: Wire) {
    && w.verb != Invalid && w.verb != Head
    && (w.version == "HTTP/1.1" || w.version == "HTTP/1.0")
    && Free(w.path, "? \r")
    && (forall i :: 0 <= i < |w.query| ==> ValidPair(w.query[i]))
    && (forall i :: 0 <= i < |w.fields| ==> ValidField(w.fields[i]))
    && |w.body| <= MAX_BODY
  }

  // ---- Request line ---------------------------------------------------------------------------------------------

  lemma FindPast(a: string, c: char, b: string)
    requires c !in a
    ensures Find(a + [c] + b, c) == |a|
    ensures (a + [c] + b)[..|a|] == a && (a + [c] + b)[|a| + 1..] == b
  {
    assert (a + [c] + b)[..|a|] == a;
    FindAt(a + [c] + b, c, |a|);
  }

  lemma FindNone(a: string, c: char)
    requires c !in a
    ensures Find(a, c) == |a|
  {
    assert a[..|a|] == a;
    FindAt(a, c, |a|);
  }

  lemma {:induction false} QueryFree(query: seq<Pair>)
    requires query != [] && forall i :: 0 <= i < |query| ==> ValidPair(query[i])
    ensures Free(QueryText(query), " \r")
  {
    assert ValidPair(query[0]);
    if |query| > 1 { QueryFree(query[1..]); }
  }

  lemma {:induction false} QueryParsed(q: map<string, string>, query: seq<Pair>)
    requires query != [] && forall i :: 0 <= i < |query| ==> ValidPair(query[i])
    ensures ParseQuery(q, QueryText(query)) == QueryMap(q, query)
    decreases |query|
  {
    var k, v := query[0].0, query[0].1;
    assert ValidPair(query[0]);
    var pair := k + "=" + v;
    FindPast(k, '=', v);
    assert AddPair(q, pair) == q[k := v];
    assert '&' !in pair;
    if |query| == 1 {
      FindNone(pair, '&');
      assert query[1..] == [];
    } else {
      FindPast(pair, '&', QueryText(query[1..]));
      QueryParsed(q[k := v], query[1..]);
    }
  }

  lemma TargetFree(w: Wire)
    requires Valid(w)
    ensures Free(Target(w), " \r")
  {
    if w.query != [] { QueryFree(w.query); }
  }

  lemma TargetParsed(w: Wire)
    requires Valid(w)
    ensures var t := Target(w); var n := Find(t, '?');
      && t[..n] == w.path
      && (if n < |t| then ParseQuery(map[], t[n + 1..]) else map[]) == QueryMap(map[], w.query)
  {
    if w.query == [] {
      assert Target(w) == w.path;
      FindNone(w.path, '?');
    } else {
      QueryParsed(map[], w.query);
      assert Target(w) == w.path + "?" + QueryText(w.query);
      FindPast(w.path, '?', QueryText(w.query));
    }
  }

  lemma MethodParsed(m: Method)
    requires m != Invalid && m != Head
    ensures ParseMethod(MethodText(m)) == m && Free(MethodText(m), " \r")
  {
  }

  lemma LineParts(m: string, t: string, version: string)
    requires ' ' !in m && ' ' !in t
    ensures RequestLine(m + " " + (t + " " + version)) == FromParts(m, t, version)
  {
    FindPast(m, ' ', t + " " + version);
    FindPast(t, ' ', version);
    hide FromParts, Find;
  }

  lemma StartLineParsed(w: Wire)
    requires Valid(w)
    ensures RequestLine(StartLine(w)) ==
      Some(Request(w.verb, w.path, QueryMap(map[], w.query), w.version, map[], "", 0))
  {
    var m, t := MethodText(w.verb), Target(w);
    MethodParsed(w.verb);
    TargetFree(w);
    TargetParsed(w);
    hide RequestLine, MethodText, Target, ParseMethod, Find, ParseQuery, QueryMap, FieldMap;
    LineParts(m, t, w.version);
    StartLineIs(w);
  }

  lemma StartLineFree(w: Wire)
    requires Valid(w)
    ensures '\r' !in StartLine(w)
  {
    MethodParsed(w.verb);
    TargetFree(w);
    hide MethodText, Target;
  }

  lemma StartLineIs(w: Wire)
    ensures StartLine(w) == MethodText(w.verb) + " " + (Target(w) + " " + w.version)
  {
  }

  // ---- Header fields -----------------------------------------------------------------------------------------------

  lemma TokenFree(s: string)
    requires Token(s)
    ensures Free(s, ":\r")
  {
    forall i | 0 <= i < |s| ensures s[i] != ':' && s[i] != '\r' { assert TokenChar(s[i]); }
  }

  lemma LineTaken(c: Context, line: string, tail: string)
    requires c.state == ExpectHeaders && '\r' !in line
    ensures Advance(c, line + "\r\n" + tail) == HeaderLine(c, line)
  {
    hide HeaderLine;
    LineEnd(line, tail);
    assert (line + "\r\n" + tail)[..|line|] == line;
  }

  lemma FieldLineFree(f: Pair)
    requires Token(f.0) && FieldText(f.1)
    ensures '\r' !in FieldLine(f) && ':' !in f.0
  {
    TokenFree(f.0);
    forall i | 0 <= i < |f.1| ensures f.1[i] != '\r' {}
  }

  lemma FieldAdded(req: Request, f: Pair)
    requires Token(f.0) && Trimmed(f.1) && FieldText(f.1)
    requires Lower(f.0) == "content-length" && "content-length" in req.headers ==> req.headers["content-length"] == f.1
    ensures AddHeader(req, FieldLine(f), |f.0|) == Some(req.(headers := WithField(req.headers, f)))
  {
    var line := FieldLine(f);
    assert line[..|f.0|] == f.0 && line[|f.0| + 1..] == " " + f.1;
    TrimSpaced(f.1);
    hide Token, FieldText, Trim, Lower;
  }

  /** One field line, which is not a second, different content-length. */
  lemma FieldParsed(c: Context, f: Pair, tail: string)
    requires c.state == ExpectHeaders
    requires Token(f.0) && Trimmed(f.1) && FieldText(f.1)
    requires Lower(f.0) == "content-length" && "content-length" in c.request.headers ==> c.request.headers["content-length"] == f.1
    ensures Advance(c, FieldLine(f) + "\r\n" + tail) ==
      Go(c.(request := c.request.(headers := WithField(c.request.headers, f))), |FieldLine(f)| + 2)
  {
    FieldLineFree(f);
    assert FieldLine(f) == f.0 + ":" + (" " + f.1);
    FindPast(f.0, ':', " " + f.1);
    FieldAdded(c.request, f);
    hide Advance, FieldLine, AddHeader, Find, Lower, Token, Trimmed, FieldText, WithField;
    LineTaken(c, FieldLine(f), tail);
  }

  lemma ParseGo(c: Context, data: string, next: Context, used: nat)
    requires Ready(c) && Advance(c, data) == Go(next, used) && next.state != GotAll
    ensures Parse(c, data) == Shift(used, Parse(next, data[used..]))
  {
  }

  lemma {:induction false} FieldsParsed(c: Context, fields: seq<Pair>, tail: string)
    requires c.state == ExpectHeaders && forall i :: 0 <= i < |fields| ==> ValidField(fields[i])
    ensures Parse(c, FieldsText(fields) + tail) ==
      Shift(|FieldsText(fields)|,
            Parse(c.(request := c.request.(headers := FieldMap(c.request.headers, fields))), tail))
    decreases |fields|
  {
    if fields == [] {
      assert "" + tail == tail;
    } else {
      var rest := FieldsText(fields[1..]) + tail;
      var line := FieldLine(fields[0]);
      assert ValidField(fields[0]);
      assert FieldsText(fields) + tail == line + "\r\n" + rest;
      assert (line + "\r\n" + rest)[|line| + 2..] == rest;
      hide Advance, Parse, ValidField, Token, FieldText, Trimmed, WithField, FieldLine;
      FieldParsed(c, fields[0], rest) by { FieldIsValid(fields[0]); }
      var next := c.(request := c.request.(headers := WithField(c.request.headers, fields[0])));
      ParseGo(c, line + "\r\n" + rest, next, |line| + 2);
      FieldsParsed(next, fields[1..], tail);
    }
  }

  lemma FieldIsValid(f: Pair)
    requires ValidField(f)
    ensures Token(f.0) && Trimmed(f.1) && FieldText(f.1) && Lower(f.0) != "content-length"
  {
  }

  lemma {:induction false} FieldKeys(h: map<string, string>, fields: seq<Pair>, key: string)
    requires key !in h && (key == "content-length" || key == "transfer-encoding")
    requires forall i :: 0 <= i < |fields| ==> ValidField(fields[i])
    ensures key !in FieldMap(h, fields)
    decreases |fields|
  {
    if fields != [] {
      assert ValidField(fields[0]);
      FieldKeys(WithField(h, fields[0]), fields[1..], key);
    }
  }

  // ---- The blank line and the body -------------------------------------------------------------------------------------

  lemma DecimalPlain(n: nat)
    ensures Trimmed(Decimal(n)) && FieldText(Decimal(n))
  {
    var s := Decimal(n);
    assert forall i :: 0 <= i < |s| ==> Digit(s[i]);
  }

  lemma {:induction false} LowerSame(s: string)
    requires forall i :: 0 <= i < |s| ==> !('A' <= s[i] <= 'Z')
    ensures Lower(s) == s
  {
    if s != "" { LowerSame(s[1..]); }
  }

  lemma PlainChar(c: char)
    requires 'a' <= c <= 'z' || c == '-'
    ensures TokenChar(c) && LowerChar(c) == c
  {
    assert "!#$%&'*+-.^_`|~"[8] == '-';
  }

  lemma PlainName(s: string)
    requires s != "" && forall i :: 0 <= i < |s| ==> 'a' <= s[i] <= 'z' || s[i] == '-'
    ensures Token(s) && Lower(s) == s
  {
    hide TokenChar, Lower;
    forall i | 0 <= i < |s| ensures TokenChar(s[i]) { PlainChar(s[i]); }
    LowerSame(s);
  }

  lemma LengthName()
    ensures Token("content-length") && Lower("content-length") == "content-length"
  {
    hide Token, Lower;
    PlainName("content-length");
  }

  lemma LengthFieldParsed(c: Context, n: nat, tail: string)
    requires c.state == ExpectHeaders && "content-length" !in c.request.headers
    ensures var f := ("content-length", Decimal(n));
      Advance(c, FieldLine(f) + "\r\n" + tail) ==
        Go(c.(request := c.request.(headers := c.request.headers["content-length" := Decimal(n)])), |FieldLine(f)| + 2)
  {
    DecimalPlain(n);
    LengthName();
    var name := "content-length";
    hide Advance, FieldLine, Decimal, Lower, Token, Trimmed, FieldText;
    FieldParsed(c, (name, Decimal(n)), tail);
  }

  /** From the blank line on, for a request without length field. */
  lemma PlainEnd(c: Context, tail: string)
    requires c.state == ExpectHeaders && c.request.verb != Post && c.request.verb != Put
    requires "content-length" !in c.request.headers && "transfer-encoding" !in c.request.headers
    ensures Parse(c, "\r\n" + tail) == Parsed(true, c.(state := GotAll), 2)
  {
    LineEnd("", tail);
    assert "" + "\r\n" + tail == "\r\n" + tail;
  }

  /** From the blank line on, for a request with a length field that tells the truth. */
  lemma SizedEnd(c: Context, body: string, tail: string)
    requires c.state == ExpectHeaders && |body| <= MAX_BODY && c.request.body == ""
    requires "transfer-encoding" !in c.request.headers
    requires "content-length" in c.request.headers && c.request.headers["content-length"] == Decimal(|body|)
    ensures Parse(c, "\r\n" + body + tail) ==
      Parsed(true, Context(GotAll, c.request.(body := body, contentLength := |body|)), 2 + |body|)
  {
    var data := "\r\n" + body + tail;
    LineEnd("", body + tail);
    assert "" + "\r\n" + (body + tail) == data;
    DecimalValue(|body|);
    AccumulateExact(Decimal(|body|), MAX_BODY);
    assert BodyLength(c.request) == Some(|body|);
    var next := Context(if body != "" then ExpectBody else GotAll, c.request.(contentLength := |body|));
    assert Advance(c, data) == Go(next, 2);
    if body != "" {
      assert data[2..] == body + tail && (body + tail)[..|body|] == body;
      ParseGo(c, data, next, 2);
    }
  }

  // ---- Round trip ------------------------------------------------------------------------------------------------------

  /** After the start line: everything up to the end of the body, from a request without headers. */
  lemma RestParsed(w: Wire, c: Context, suffix: string)
    requires Valid(w) && c.state == ExpectHeaders
    requires c.request == Request(w.verb, w.path, QueryMap(map[], w.query), w.version, map[], "", 0)
    ensures Parse(c, Rest(w) + suffix) == Parsed(true, Context(GotAll, Meaning(w)), |Rest(w)|)
  {
    var h := FieldMap(map[], w.fields);
    var c1 := c.(request := c.request.(headers := h));
    var tail := FieldsText(LengthFields(w)) + ("\r\n" + w.body) + suffix;
    assert Rest(w) + suffix == FieldsText(w.fields) + tail;
    FieldsParsed(c, w.fields, tail);
    FieldKeys(map[], w.fields, "content-length");
    FieldKeys(map[], w.fields, "transfer-encoding");
    hide Parse, Advance, FieldMap, FieldLine, Valid, QueryMap;
    EndParsed(w, c1, suffix);
  }

  lemma EndParsed(w: Wire, c: Context, suffix: string)
    requires c.state == ExpectHeaders && |w.body| <= MAX_BODY
    requires c.request.verb == w.verb && c.request.body == "" && c.request.contentLength == 0
    requires "transfer-encoding" !in c.request.headers && "content-length" !in c.request.headers
    ensures var h := c.request.headers;
      Parse(c, FieldsText(LengthFields(w)) + ("\r\n" + w.body) + suffix) ==
        Parsed(true, Context(GotAll, c.request.(body := w.body, contentLength := |w.body|,
          headers := if Sized(w) then h["content-length" := Decimal(|w.body|)] else h)),
          |FieldsText(LengthFields(w)) + ("\r\n" + w.body)|)
  {
    hide Parse, Advance, Decimal, FieldLine;
    if Sized(w) {
      var f := ("content-length", Decimal(|w.body|));
      var line, tail := FieldLine(f), "\r\n" + w.body + suffix;
      var data := line + "\r\n" + tail;
      assert LengthFields(w)[1..] == [] && FieldsText(LengthFields(w)) == line + "\r\n" + "" == line + "\r\n";
      assert FieldsText(LengthFields(w)) + ("\r\n" + w.body) + suffix == data;
      LengthFieldParsed(c, |w.body|, tail);
      var next := c.(request := c.request.(headers := c.request.headers["content-length" := Decimal(|w.body|)]));
      assert data[|line| + 2..] == tail;
      ParseGo(c, data, next, |line| + 2);
      SizedEnd(next, w.body, suffix);
    } else {
      assert "" + ("\r\n" + w.body) + suffix == "\r\n" + suffix;
      PlainEnd(c, suffix);
    }
  }

  lemma StartTaken(line: string, req: Request, tail: string)
    requires '\r' !in line && RequestLine(line) == Some(req)
    ensures Advance(NEW_CONTEXT, line + "\r\n" + tail) == Go(Context(ExpectHeaders, req), |line| + 2)
  {
    hide RequestLine;
    LineEnd(line, tail);
    assert (line + "\r\n" + tail)[..|line|] == line;
  }

  lemma TextIs(w: Wire, suffix: string)
    ensures Text(w) + suffix == StartLine(w) + "\r\n" + (Rest(w) + suffix)
    ensures |Text(w)| == |StartLine(w)| + 2 + |Rest(w)|
    ensures Ready(NEW_CONTEXT)
  {
    hide StartLine, Rest;
  }

  /** Parsing the text of a request, whatever follows it, takes exactly that text and returns
      what it denotes. */
  lemma TextParsed(w: Wire, suffix: string)
    requires Valid(w)
    ensures Parse(NEW_CONTEXT, Text(w) + suffix) == Parsed(true, Context(GotAll, Meaning(w)), |Text(w)|)
  {
    var line, rest := StartLine(w), Rest(w) + suffix;
    var next := Context(ExpectHeaders,
                        Request(w.verb, w.path, QueryMap(map[], w.query), w.version, map[], "", 0));
    StartLineParsed(w);
    StartLineFree(w);
    TextIs(w, suffix);
    hide *;
    var data := line + "\r\n" + rest;
    assert data[|line| + 2..] == rest;
    StartTaken(line, next.request, rest);
    ParseGo(NEW_CONTEXT, data, next, |line| + 2);
    RestParsed(w, next, suffix);
  }

  /** One byte stream never reads as two different first requests. */
  lemma Unambiguous(w: Wire, v: Wire, s: string, t: string)
    requires Valid(w) && Valid(v) && Text(w) + s == Text(v) + t
    ensures Meaning(w) == Meaning(v) && s == t
  {
    TextParsed(w, s);
    TextParsed(v, t);
    hide Text, Meaning, Valid, Parse;
    assert s == (Text(w) + s)[|Text(w)|..] && t == (Text(v) + t)[|Text(v)|..];
  }

  function TextAll(ws: seq<Wire>): string { if ws == [] then "" else Text(ws[0]) + TextAll(ws[1..]) }

  function MeaningAll(ws: seq<Wire>): seq<Request> { if ws == [] then [] else [Meaning(ws[0])] + MeaningAll(ws[1..]) }

  /** Pipelined requests that leave the connection open are dispatched one by one, in order, and
      what follows them is what the connection goes on with. */
  lemma {:induction false} Pipelined(handler: Request -> Reply, s: Conn, ws: seq<Wire>, suffix: string)
    requires !s.stopped && s.context == NEW_CONTEXT && s.buf == TextAll(ws) + suffix
    requires forall i :: 0 <= i < |ws| ==> Valid(ws[i]) && Decide(handler, Meaning(ws[i])) == KeepOpen
    ensures Drain(handler, s) == Drain(handler, s.(buf := suffix, dispatched := s.dispatched + MeaningAll(ws)))
    decreases |ws|
  {
    hide Valid, Text, Meaning, Parse, Decide;
    if ws == [] {
      assert "" + suffix == suffix && s.dispatched + [] == s.dispatched;
    } else {
      var rest := TextAll(ws[1..]) + suffix;
      assert s.buf == Text(ws[0]) + rest && s.buf[|Text(ws[0])|..] == rest;
      TextParsed(ws[0], rest);
      var s1 := s.(buf := rest, dispatched := s.dispatched + [Meaning(ws[0])]);
      assert Turn(handler, s) == Turned(s1, true);
      hide Turn, Drain;
      DrainTurn(handler, s);
      Pipelined(handler, s1, ws[1..], suffix);
      assert s1.dispatched + MeaningAll(ws[1..]) == s.dispatched + MeaningAll(ws);
    }
  }

  /** A request that ends the connection is the last one dispatched, whatever was sent after it. */
  lemma LastRequest(handler: Request -> Reply, s: Conn, w: Wire, suffix: string)
    requires !s.stopped && s.context == NEW_CONTEXT && s.buf == Text(w) + suffix
    requires Valid(w) && Decide(handler, Meaning(w)) == Finish
    ensures Drain(handler, s) == Conn(NEW_CONTEXT, "", true, s.dispatched + [Meaning(w)], s.errors)
  {
    hide Valid, Text, Meaning, Parse, Decide;
    TextParsed(w, suffix);
  }
}
