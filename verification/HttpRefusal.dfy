/** What the server accepts line by line, and that everything else is answered by one error response
    and the end of the connection. */
module HttpRefusal {
  import opened Optional
  import opened HttpText
  import opened HttpRequest
  import opened HttpContext
  import opened HttpServer
  import opened HttpSplit
  import opened HttpWire
  import opened HttpClosing

  // ---- Request lines ---------------------------------------------------------------------------------------

  /** A target is a path, or a path, a question mark and a query. */
  ghost predicate TargetIs(t: string, path: string, query: map<string, string>) {
    || (t == path && '?' !in path && query == map[])
    || (exists q: string :: t == path + "?" + q && '?' !in path && query == ParseQuery(map[], q))
  }

  ghost predicate StartText(line: string, req: Request, t: string) {
    && line == MethodText(req.verb) + " " + t + " " + req.version && ' ' !in t && TargetIs(t, req.path, req.query)
    && req.verb in {Get, Post, Put, Delete, Options} && req.version in {"HTTP/1.0", "HTTP/1.1"}
    && req.headers == map[] && req.body == "" && req.contentLength == 0
  }

  lemma MethodExact(text: string, m: Method)
    ensures m in {Get, Post, Put, Delete, Options} ==> (text == MethodText(m) <==> ParseMethod(text) == m)
    ensures ParseMethod(text) != Invalid ==> ParseMethod(text) in {Get, Post, Put, Delete, Options}
  {
  }

  lemma CutAt(s: string, c: char)
    requires Find(s, c) < |s|
    ensures s == s[..Find(s, c)] + [c] + s[Find(s, c) + 1..] && c !in s[..Find(s, c)]
  {
  }

  lemma TargetCut(t: string)
    ensures var n := Find(t, '?'); TargetIs(t, t[..n], if n < |t| then ParseQuery(map[], t[n + 1..]) else map[])
  {
    var n := Find(t, '?');
    if n < |t| {
      CutAt(t, '?');
      assert t == t[..n] + "?" + t[n + 1..];
    } else {
      assert t[..n] == t;
    }
    hide ParseQuery, Find;
  }

  lemma TargetOnce(t: string, path: string, query: map<string, string>)
    requires TargetIs(t, path, query)
    ensures var n := Find(t, '?'); path == t[..n] && query == if n < |t| then ParseQuery(map[], t[n + 1..]) else map[]
  {
    if t == path && '?' !in path && query == map[] {
      FindNone(t, '?');
    } else {
      var q: string :| t == path + "?" + q && '?' !in path && query == ParseQuery(map[], q);
      FindPast(path, '?', q);
    }
    hide ParseQuery, Find;
  }

  /** A request line is accepted exactly if it is one of the five methods, a target without blanks and one
      of the two versions, with one blank between them, and it means what they say. */
  lemma StartExact(line: string, req: Request)
    ensures RequestLine(line) == Some(req) <==> exists t: string :: StartText(line, req, t)
  {
    if RequestLine(line) == Some(req) { StartForward(line, req); }
    if t: string :| StartText(line, req, t) { StartBackward(line, req, t); }
  }

  lemma StartBackward(line: string, req: Request, t: string)
    requires StartText(line, req, t)
    ensures RequestLine(line) == Some(req)
  {
    PartsBack(req, t);
    assert line == MethodText(req.verb) + " " + t + " " + req.version && ' ' !in t by { hide TargetIs; }
    hide *;
    var m := MethodText(req.verb);
    LineParts(m, t, req.version);
    SameLine(line, m, t, req.version);
  }

  lemma SameLine(line: string, m: string, t: string, v: string)
    requires line == m + " " + t + " " + v
    ensures line == m + " " + (t + " " + v)
  {
  }

  lemma PartsBack(req: Request, t: string)
    requires TargetIs(t, req.path, req.query)
    requires req.verb in {Get, Post, Put, Delete, Options} && req.version in {"HTTP/1.0", "HTTP/1.1"}
    requires req.headers == map[] && req.body == "" && req.contentLength == 0
    ensures FromParts(MethodText(req.verb), t, req.version) == Some(req) && ' ' !in MethodText(req.verb)
  {
    TargetOnce(t, req.path, req.query);
    hide TargetIs, Find, ParseQuery;
  }

  lemma StartForward(line: string, req: Request)
    requires RequestLine(line) == Some(req)
    ensures exists t: string :: StartText(line, req, t)
  {
    var m, t, v := LineCuts(line);
    PartsMean(m, t, v, req);
    hide *;
    assert StartText(line, req, t) by { Spelled(line, m, t, v, req); }
  }

  lemma Spelled(line: string, m: string, t: string, v: string, req: Request)
    requires line == m + " " + t + " " + v && ' ' !in t && m == MethodText(req.verb) && v == req.version && TargetIs(t, req.path, req.query)
    requires req.verb in {Get, Post, Put, Delete, Options} && v in {"HTTP/1.0", "HTTP/1.1"}
    requires req.headers == map[] && req.body == "" && req.contentLength == 0
    ensures StartText(line, req, t)
  {
    hide TargetIs, MethodText;
  }

  lemma PartsMean(m: string, t: string, v: string, req: Request)
    requires FromParts(m, t, v) == Some(req)
    ensures m == MethodText(req.verb) && v == req.version && TargetIs(t, req.path, req.query)
    ensures req.verb in {Get, Post, Put, Delete, Options} && v in {"HTTP/1.0", "HTTP/1.1"}
    ensures req.headers == map[] && req.body == "" && req.contentLength == 0
  {
    MethodExact(m, req.verb);
    TargetCut(t);
    hide Find, ParseQuery, ParseMethod, MethodText, TargetIs;
  }

  lemma LineCuts(line: string) returns (m: string, t: string, v: string)
    requires RequestLine(line).Some?
    ensures line == m + " " + t + " " + v && ' ' !in t && RequestLine(line) == FromParts(m, t, v)
  {
    var a := Find(line, ' ');
    var rest := line[a + 1..];
    var b := Find(rest, ' ');
    m, t, v := line[..a], rest[..b], rest[b + 1..];
    hide FromParts;
    CutAt(line, ' ');
    CutAt(rest, ' ');
    hide Find;
    Rejoined(m, t, v, rest);
  }

  lemma Rejoined(m: string, t: string, v: string, rest: string)
    requires rest == t + [' '] + v
    ensures m + [' '] + rest == m + " " + t + " " + v
  {
    assert [' '] == " ";
    assert m + " " + (t + " " + v) == m + " " + t + " " + v;
  }

  // ---- Fields -----------------------------------------------------------------------------------------------------

  /** RFC 9110 section 5.6.2: a token is visible characters other than delimiters. */
  ghost predicate Name(s: string) {
    s != "" && forall c :: c in s ==> '!' <= c <= '~' && c !in "\"(),/:;<=>?@[\\]{}"
  }

  lemma TokenExact(c: char)
    ensures TokenChar(c) <==> '!' <= c <= '~' && c !in "\"(),/:;<=>?@[\\]{}"
  {
    var marks := "!#$%&'*+-.^_`|~";
    var delimiters := "\"(),/:;<=>?@[\\]{}";
    assert |marks| == 15 && |delimiters| == 17;
    assert forall i :: 0 <= i < 15 ==> marks[i] in marks;
    assert forall i :: 0 <= i < 17 ==> delimiters[i] in delimiters;
  }

  lemma NameExact(s: string)
    ensures Token(s) <==> Name(s)
  {
    forall c ensures TokenChar(c) <==> '!' <= c <= '~' && c !in "\"(),/:;<=>?@[\\]{}" { TokenExact(c); }
    hide TokenChar;
    forall i | 0 <= i < |s| && Name(s) ensures TokenChar(s[i]) { assert s[i] in s; }
  }

  /** What a field value may hold: no control character but the tab. */
  ghost predicate Printable(s: string) { forall c :: c in s ==> c == '\t' || (' ' <= c && c != '\U{007F}') }

  /** The line is a name, a colon and the value between blanks. */
  ghost predicate FieldAt(line: string, name: string, value: string, i: nat, j: nat) {
    && |name| < i <= j <= |line| && line[..|name|] == name && ':' !in name && line[|name|] == ':'
    && Blanks(line, |name| + 1, i) && Blanks(line, j, |line|) && value == line[i..j]
    && (i < j ==> line[i] !in " \t" && line[j - 1] !in " \t")
  }

  /** The field is a second length that differs from the first. */
  ghost predicate Conflicts(h: map<string, string>, name: string, value: string) {
    SameWord(name, "content-length") && "content-length" in h && h["content-length"] != value
  }

  lemma FieldCut(line: string) returns (name: string, value: string, i: nat, j: nat)
    requires ':' in line
    ensures FieldAt(line, name, value, i, j) && |name| == Find(line, ':') && value == Trim(line[|name| + 1..])
  {
    var n := Find(line, ':');
    FindInside(line, ':');
    name := line[..n];
    var raw := line[n + 1..];
    var a, b := TrimIs(raw);
    i, j, value := n + 1 + a, n + 1 + b, raw[a..b];
    hide Find, Trim;
    RawShifted(line, n + 1, a, b);
  }

  lemma RawShifted(line: string, m: nat, a: nat, b: nat)
    requires 0 < m <= |line| && a <= b <= |line| - m && Blanks(line[m..], 0, a) && Blanks(line[m..], b, |line| - m)
    requires a < b ==> !Blank(line[m..][a]) && !Blank(line[m..][b - 1])
    ensures Blanks(line, m, m + a) && Blanks(line, m + b, |line|) && line[m..][a..b] == line[m + a..m + b]
    ensures a < b ==> line[m + a] !in " \t" && line[m + b - 1] !in " \t"
  {
    var raw := line[m..];
    assert forall k :: 0 <= k < |raw| ==> raw[k] == line[k + m];
    BlanksShifted(line, raw, m, 0, a);
    BlanksShifted(line, raw, m, b, |raw|);
  }

  lemma FindInside(s: string, c: char)
    requires c in s
    ensures Find(s, c) < |s|
  {
    assert s[..|s|] == s;
  }

  lemma PrintableExact(s: string)
    ensures FieldText(s) <==> Printable(s)
  {
    forall i | 0 <= i < |s| ensures s[i] in s {}
  }

  /** A field line is taken exactly if its name is a token, its value has no control character, and it is
      not a second, different length; nothing before the colon is trimmed, blanks around the value are. */
  lemma FieldExact(c: Context, line: string) returns (name: string, value: string, i: nat, j: nat)
    requires ':' in line
    ensures FieldAt(line, name, value, i, j)
    ensures HeaderLine(c, line).Bad? || HeaderLine(c, line).Go?
    ensures HeaderLine(c, line).Go? <==> Name(name) && Printable(value) && !Conflicts(c.request.headers, name, value)
    ensures HeaderLine(c, line).Go? ==>
      HeaderLine(c, line) == Go(c.(request := c.request.(headers := WithField(c.request.headers, (name, value)))), |line| + 2)
  {
    name, value, i, j := FieldCut(line);
    NameExact(name);
    PrintableExact(value);
    LowerIsWord(name, "content-length");
    assert Find(line, ':') < |line| && line[..|name|] == name;
    hide Find, Trim, Lower, Token, FieldText, SameWord, Name, Printable, FieldAt;
  }

  // ---- Header blocks --------------------------------------------------------------------------------------------------

  ghost predicate GoodField(f: Pair) { Token(f.0) && Trimmed(f.1) && FieldText(f.1) }

  ghost predicate IsLength(f: Pair) { SameWord(f.0, "content-length") }

  /** The block says its length once, or the same each time. */
  ghost predicate OneLength(h: map<string, string>, fields: seq<Pair>) {
    && (forall i, j :: 0 <= i < j < |fields| && IsLength(fields[i]) && IsLength(fields[j]) ==> fields[i].1 == fields[j].1)
    && (forall i :: 0 <= i < |fields| && IsLength(fields[i]) && "content-length" in h ==> h["content-length"] == fields[i].1)
  }

  lemma OneLengthNext(h: map<string, string>, fields: seq<Pair>)
    requires fields != []
    ensures OneLength(h, fields) <==>
      !(IsLength(fields[0]) && "content-length" in h && h["content-length"] != fields[0].1) && OneLength(WithField(h, fields[0]), fields[1..])
  {
    var f, rest, g := fields[0], fields[1..], WithField(h, fields[0]);
    LowerIsWord(f.0, "content-length");
    LengthAfter(h, f);
    hide Lower, WithField, IsLength;
    assert forall i :: 0 <= i < |rest| ==> rest[i] == fields[i + 1];
    if OneLength(h, fields) {
      assert OneLength(g, rest);
    }
    if OneLength(g, rest) && !(IsLength(f) && "content-length" in h && h["content-length"] != f.1) {
      OneLengthBack(h, fields, g);
    }
  }

  lemma LengthAfter(h: map<string, string>, f: Pair)
    ensures var g := WithField(h, f);
      if IsLength(f) then "content-length" in g && g["content-length"] == f.1
      else ("content-length" in g <==> "content-length" in h) && ("content-length" in h ==> g["content-length"] == h["content-length"])
  {
    LowerIsWord(f.0, "content-length");
    hide Lower, SameWord;
  }

  lemma OneLengthBack(h: map<string, string>, fields: seq<Pair>, g: map<string, string>)
    requires fields != [] && OneLength(g, fields[1..])
    requires !(IsLength(fields[0]) && "content-length" in h && h["content-length"] != fields[0].1)
    requires if IsLength(fields[0]) then "content-length" in g && g["content-length"] == fields[0].1
      else ("content-length" in g <==> "content-length" in h) && ("content-length" in h ==> g["content-length"] == h["content-length"])
    ensures OneLength(h, fields)
  {
    hide IsLength;
    var f, rest := fields[0], fields[1..];
    forall i | 0 <= i < |fields| && IsLength(fields[i]) && "content-length" in h ensures h["content-length"] == fields[i].1 {
      if i > 0 { assert rest[i - 1] == fields[i]; }
    }
    forall i, j | 0 <= i < j < |fields| && IsLength(fields[i]) && IsLength(fields[j]) ensures fields[i].1 == fields[j].1 {
      assert rest[j - 1] == fields[j];
      if i > 0 { assert rest[i - 1] == fields[i]; }
    }
  }

  lemma FieldBad(c: Context, f: Pair, tail: string)
    requires c.state == ExpectHeaders && GoodField(f)
    requires IsLength(f) && "content-length" in c.request.headers && c.request.headers["content-length"] != f.1
    ensures Advance(c, FieldLine(f) + "\r\n" + tail).Bad?
  {
    var line := FieldLine(f);
    FieldLineFree(f);
    assert line == f.0 + ":" + (" " + f.1);
    FindPast(f.0, ':', " " + f.1);
    assert line[..|f.0|] == f.0 && line[|f.0| + 1..] == " " + f.1;
    TrimSpaced(f.1);
    LowerIsWord(f.0, "content-length");
    hide Advance, FieldLine, Find, Lower, Token, Trim, Trimmed, FieldText, SameWord;
    LineTaken(c, line, tail);
  }

  lemma ParseBad(c: Context, data: string)
    requires Ready(c) && Advance(c, data).Bad?
    ensures !Parse(c, data).ok
  {
  }

  function TakeFields(c: Context, fields: seq<Pair>): Context {
    c.(request := c.request.(headers := FieldMap(c.request.headers, fields)))
  }

  /** The block is read as the fields it lists, or refused if it says two lengths. */
  ghost predicate BlockRead(c: Context, fields: seq<Pair>, tail: string)
    requires Ready(c) && Ready(TakeFields(c, fields))
  {
    var p := Parse(c, FieldsText(fields) + tail);
    if OneLength(c.request.headers, fields) then p == Shift(|FieldsText(fields)|, Parse(TakeFields(c, fields), tail))
    else !p.ok
  }

  lemma BlockEmpty(c: Context, tail: string)
    requires c.state == ExpectHeaders
    ensures BlockRead(c, [], tail)
  {
    assert "" + tail == tail && TakeFields(c, []) == c;
    hide Parse;
  }

  lemma BlockBad(c: Context, fields: seq<Pair>, tail: string)
    requires c.state == ExpectHeaders && fields != [] && GoodField(fields[0])
    requires var f, h := fields[0], c.request.headers; IsLength(f) && "content-length" in h && h["content-length"] != f.1
    ensures BlockRead(c, fields, tail)
  {
    var line, rest := FieldLine(fields[0]), FieldsText(fields[1..]) + tail;
    FieldsHead(c.request.headers, fields, tail);
    FieldBad(c, fields[0], rest);
    OneLengthNext(c.request.headers, fields);
    assert !OneLength(c.request.headers, fields);
    hide *;
    ReadyHeaders(c);
    ParseBad(c, line + "\r\n" + rest);
    assert BlockRead(c, fields, tail) by { BlockIs(c, fields, tail); }
  }

  lemma BlockIs(c: Context, fields: seq<Pair>, tail: string)
    requires c.state == ExpectHeaders
    ensures BlockRead(c, fields, tail) <==>
      if OneLength(c.request.headers, fields)
      then Parse(c, FieldsText(fields) + tail) == Shift(|FieldsText(fields)|, Parse(TakeFields(c, fields), tail))
      else !Parse(c, FieldsText(fields) + tail).ok
    ensures TakeFields(c, fields).state == ExpectHeaders && Ready(TakeFields(c, fields))
  {
    hide Parse, FieldsText, OneLength;
  }

  lemma BlockGood(c: Context, fields: seq<Pair>, tail: string)
    requires c.state == ExpectHeaders && fields != [] && GoodField(fields[0])
    requires var f, h := fields[0], c.request.headers; !(IsLength(f) && "content-length" in h && h["content-length"] != f.1)
    requires BlockRead(c.(request := c.request.(headers := WithField(c.request.headers, fields[0]))), fields[1..], tail)
    ensures BlockRead(c, fields, tail)
  {
    var f, h := fields[0], c.request.headers;
    var next := c.(request := c.request.(headers := WithField(h, f)));
    var line, more := FieldLine(f), FieldsText(fields[1..]);
    FieldsHead(h, fields, tail);
    NotConflicting(h, f);
    OneLengthNext(h, fields);
    TakenNext(c, fields);
    assert Token(f.0) && Trimmed(f.1) && FieldText(f.1);
    hide *;
    ReadyHeaders(c);
    ReadyHeaders(next);
    BlockIs(next, fields[1..], tail);
    BlockIs(c, fields, tail);
    FieldParsed(c, f, more + tail);
    ParseGo(c, line + "\r\n" + (more + tail), next, |line| + 2);
    ShiftTwice(|line| + 2, |more|, Parse(TakeFields(c, fields), tail));
    ShiftTwice(|line| + 2, 0, Parse(next, more + tail));
  }

  lemma TakenNext(c: Context, fields: seq<Pair>)
    requires fields != []
    ensures TakeFields(c, fields) == TakeFields(c.(request := c.request.(headers := WithField(c.request.headers, fields[0]))), fields[1..])
  {
    FieldsHead(c.request.headers, fields, "");
    hide FieldMap, WithField;
  }

  lemma {:induction false} FieldsDecide(c: Context, fields: seq<Pair>, tail: string)
    requires c.state == ExpectHeaders && forall i :: 0 <= i < |fields| ==> GoodField(fields[i])
    ensures BlockRead(c, fields, tail)
    decreases |fields|
  {
    hide GoodField, BlockRead, IsLength, WithField;
    if fields == [] {
      BlockEmpty(c, tail);
    } else {
      var f, h := fields[0], c.request.headers;
      if IsLength(f) && "content-length" in h && h["content-length"] != f.1 {
        BlockBad(c, fields, tail);
      } else {
        FieldsDecide(c.(request := c.request.(headers := WithField(h, f))), fields[1..], tail);
        BlockGood(c, fields, tail);
      }
    }
  }

  lemma NotConflicting(h: map<string, string>, f: Pair)
    requires !(IsLength(f) && "content-length" in h && h["content-length"] != f.1)
    ensures Lower(f.0) == "content-length" && "content-length" in h ==> h["content-length"] == f.1
  {
    LowerIsWord(f.0, "content-length");
  }

  lemma ReadyHeaders(c: Context)
    requires c.state == ExpectHeaders
    ensures Ready(c)
  {
  }

  lemma FieldsHead(h: map<string, string>, fields: seq<Pair>, tail: string)
    requires fields != []
    ensures var line, more := FieldLine(fields[0]), FieldsText(fields[1..]);
      && FieldsText(fields) + tail == line + "\r\n" + (more + tail) && |FieldsText(fields)| == |line| + 2 + |more|
      && (line + "\r\n" + (more + tail))[|line| + 2..] == more + tail
    ensures FieldMap(h, fields) == FieldMap(WithField(h, fields[0]), fields[1..])
  {
    hide FieldLine, WithField;
  }

  lemma ShiftTwice(a: nat, b: nat, p: Parsed)
    ensures Shift(a, Shift(b, p)) == Shift(a + b, p) && Shift(a, p).ok == p.ok
  {
  }

  // ---- The blank line -----------------------------------------------------------------------------------------------------

  /** What the blank line accepts: no transfer coding, and a length that is a number of at most ten
      mebibytes, or none for a method that needs none. */
  ghost predicate Deliverable(h: map<string, string>, verb: Method) {
    && "transfer-encoding" !in h
    && (if "content-length" in h then SmallNumber(h["content-length"]) else verb != Post && verb != Put)
  }

  ghost predicate SmallNumber(s: string) { s != "" && (forall c :: c in s ==> '0' <= c <= '9') && Weight(s) <= 10485760 }

  /** The number a text of digits denotes, from the front: each digit times its power of ten. */
  ghost function Weight(s: string): int {
    if s == "" then 0 else (s[0] as int - '0' as int) * Ten(|s| - 1) + Weight(s[1..])
  }

  ghost function Ten(n: nat): int { if n == 0 then 1 else 10 * Ten(n - 1) }

  lemma {:induction false} WeightIs(s: string)
    requires AllDigits(s)
    ensures Weight(s) == Value(s)
  {
    if s != "" {
      var front, last := s[..|s| - 1], s[|s| - 1];
      WeightIs(front);
      WeightAppend(front, last);
      assert s == front + [last];
    }
  }

  lemma {:induction false} WeightAppend(s: string, c: char)
    ensures Weight(s + [c]) == 10 * Weight(s) + (c as int - '0' as int)
  {
    if s == "" {
      assert "" + [c] == [c] && [c][1..] == "";
    } else {
      assert (s + [c])[1..] == s[1..] + [c];
      WeightAppend(s[1..], c);
      var d := s[0] as int - '0' as int;
      assert d * Ten(|s|) == 10 * (d * Ten(|s| - 1)) by { TenTimes(d, Ten(|s| - 1)); }
    }
  }

  lemma TenTimes(d: int, t: int)
    ensures d * (10 * t) == 10 * (d * t)
  {
  }

  lemma SmallExact(s: string)
    ensures SmallNumber(s) <==> s != "" && AllDigits(s) && Value(s) <= 10485760
  {
    assert AllDigits(s) <==> forall c :: c in s ==> '0' <= c <= '9' by {
      forall i | 0 <= i < |s| ensures s[i] in s {}
    }
    if AllDigits(s) { WeightIs(s); }
    hide Weight, Value;
  }

  lemma BlankDecides(c: Context, tail: string)
    requires c.state == ExpectHeaders
    ensures Parse(c, "\r\n" + tail).ok <==> Deliverable(c.request.headers, c.request.verb)
  {
    var data := "\r\n" + tail;
    LineEnd("", tail);
    assert "" + "\r\n" + tail == data;
    if "content-length" in c.request.headers {
      SmallExact(c.request.headers["content-length"]);
      AccumulateExact(c.request.headers["content-length"], MAX_BODY);
    }
    hide SmallNumber, Accumulate, Value;
    BlankMove(c, tail);
    hide Advance;
  }

  /** A body is waited for, or ends the request. */
  ghost predicate BodyMoves(c: Context, data: string)
    requires Ready(c)
  {
    var m := Advance(c, data);
    m.Wait? || (m.Go? && m.next.state == GotAll)
  }

  lemma BlankMove(c: Context, tail: string)
    requires c.state == ExpectHeaders
    ensures BodyLength(c.request).None? ==> Advance(c, "\r\n" + tail).Bad?
    ensures BodyLength(c.request).Some? ==>
      var m := Advance(c, "\r\n" + tail);
      m.Go? && (m.next.state == GotAll || (m.next.state == ExpectBody && BodyMoves(m.next, ("\r\n" + tail)[m.used..])))
  {
    LineEnd("", tail);
    assert "" + "\r\n" + tail == "\r\n" + tail;
    hide Accumulate;
  }

  // ---- One error response --------------------------------------------------------------------------------------------------

  /** What a refused input does: one error response, nothing dispatched, and the end of the connection. */
  function Refused(s: Conn): Conn { Conn(NEW_CONTEXT, "", true, s.dispatched, s.errors + 1) }

  lemma RefusedOnce(handler: Request -> Reply, s: Conn)
    requires Ready(s.context) && !s.stopped && !Parse(s.context, s.buf).ok
    ensures Drain(handler, s) == Refused(s)
  {
    hide Parse;
  }

  /** After a good request line and a block of good fields, the blank line is refused exactly if the block
      says two different lengths, announces a transfer coding, says a length that is no number of at most ten
      mebibytes, or says none for POST or PUT; then one error response is given and nothing is dispatched. */
  lemma BlockDecides(handler: Request -> Reply, s: Conn, w: Wire, fields: seq<Pair>, tail: string)
    requires !s.stopped && s.context == NEW_CONTEXT && Valid(w) && forall i :: 0 <= i < |fields| ==> GoodField(fields[i])
    requires s.buf == StartLine(w) + "\r\n" + (FieldsText(fields) + ("\r\n" + tail))
    ensures Parse(NEW_CONTEXT, s.buf).ok <==> OneLength(map[], fields) && Deliverable(FieldMap(map[], fields), w.verb)
    ensures !(OneLength(map[], fields) && Deliverable(FieldMap(map[], fields), w.verb)) ==> Drain(handler, s) == Refused(s)
  {
    var req := Request(w.verb, w.path, QueryMap(map[], w.query), w.version, map[], "", 0);
    var next := Context(ExpectHeaders, req);
    var line, rest := StartLine(w), FieldsText(fields) + ("\r\n" + tail);
    StartLineParsed(w);
    StartLineFree(w);
    StartTaken(line, req, rest);
    ReadyNew();
    FieldsDecide(next, fields, "\r\n" + tail);
    var last := TakeFields(next, fields);
    BlockIs(next, fields, "\r\n" + tail);
    BlankDecides(last, tail);
    assert last.request.headers == FieldMap(map[], fields) && last.request.verb == w.verb;
    assert (line + "\r\n" + rest)[|line| + 2..] == rest;
    hide *;
    ParseGo(NEW_CONTEXT, s.buf, next, |line| + 2);
    ShiftTwice(|line| + 2, 0, Parse(next, rest));
    ShiftTwice(|FieldsText(fields)|, 0, Parse(last, "\r\n" + tail));
    if !Parse(NEW_CONTEXT, s.buf).ok { RefusedOnce(handler, s); }
  }

  lemma ReadyNew()
    ensures Ready(NEW_CONTEXT)
  {
  }

  /** Two different lengths in one block give one error response and no dispatch, wherever they stand. */
  lemma TwoLengths(handler: Request -> Reply, s: Conn, w: Wire, fields: seq<Pair>, tail: string, i: nat, j: nat)
    requires !s.stopped && s.context == NEW_CONTEXT && Valid(w) && forall k :: 0 <= k < |fields| ==> GoodField(fields[k])
    requires s.buf == StartLine(w) + "\r\n" + (FieldsText(fields) + ("\r\n" + tail))
    requires i < j < |fields| && IsLength(fields[i]) && IsLength(fields[j]) && fields[i].1 != fields[j].1
    ensures Drain(handler, s) == Refused(s)
  {
    assert !OneLength(map[], fields);
    hide *;
    BlockDecides(handler, s, w, fields, tail);
  }

  /** A first line that is no request line is refused. */
  lemma StartRefused(handler: Request -> Reply, s: Conn, line: string, tail: string)
    requires !s.stopped && s.context == NEW_CONTEXT && s.buf == line + "\r\n" + tail && '\r' !in line
    requires forall req: Request, t: string :: !StartText(line, req, t)
    ensures Drain(handler, s) == Refused(s)
  {
    if RequestLine(line).Some? {
      StartExact(line, RequestLine(line).value);
      assert false;
    }
    LineEnd(line, tail);
    assert s.buf[..|line|] == line;
    ReadyNew();
    assert Advance(NEW_CONTEXT, s.buf).Bad? by { hide RequestLine, StartText; }
    hide *;
    ParseBad(NEW_CONTEXT, s.buf);
    RefusedOnce(handler, s);
  }

  /** After good fields, a line that has no colon, or whose name is no token or whose value has a control
      character, is refused. */
  lemma LineRefused(handler: Request -> Reply, s: Conn, w: Wire, fields: seq<Pair>, line: string, tail: string)
    requires !s.stopped && s.context == NEW_CONTEXT && Valid(w) && forall i :: 0 <= i < |fields| ==> GoodField(fields[i])
    requires s.buf == StartLine(w) + "\r\n" + (FieldsText(fields) + (line + "\r\n" + tail)) && '\r' !in line && line != ""
    requires ':' !in line || forall name, value, i, j :: FieldAt(line, name, value, i, j) ==> !Name(name) || !Printable(value)
    ensures Drain(handler, s) == Refused(s)
  {
    var req := Request(w.verb, w.path, QueryMap(map[], w.query), w.version, map[], "", 0);
    var next := Context(ExpectHeaders, req);
    var first, end := StartLine(w), line + "\r\n" + tail;
    var rest := FieldsText(fields) + end;
    StartLineParsed(w);
    StartLineFree(w);
    StartTaken(first, req, rest);
    ReadyNew();
    FieldsDecide(next, fields, end);
    var last := TakeFields(next, fields);
    BlockIs(next, fields, end);
    BadLine(last, line, tail);
    assert (first + "\r\n" + rest)[|first| + 2..] == rest;
    hide *;
    ParseGo(NEW_CONTEXT, s.buf, next, |first| + 2);
    ShiftTwice(|first| + 2, 0, Parse(next, rest));
    ShiftTwice(|FieldsText(fields)|, 0, Parse(last, end));
    RefusedOnce(handler, s);
  }

  lemma BadLine(c: Context, line: string, tail: string)
    requires c.state == ExpectHeaders && '\r' !in line && line != ""
    requires ':' !in line || forall name, value, i, j :: FieldAt(line, name, value, i, j) ==> !Name(name) || !Printable(value)
    ensures !Parse(c, line + "\r\n" + tail).ok
  {
    if ':' in line {
      var name, value, i, j := FieldExact(c, line);
    } else {
      FindNone(line, ':');
    }
    LineTaken(c, line, tail);
    assert HeaderLine(c, line).Bad? by { hide AddHeader, FieldAt; }
    hide *;
    ReadyHeaders(c);
    ParseBad(c, line + "\r\n" + tail);
  }

  // ---- Queries ------------------------------------------------------------------------------------------------------------

  /** A piece of a query without an equals sign says nothing. */
  lemma PieceDropped(q: map<string, string>, piece: string, rest: string)
    requires '=' !in piece && '&' !in piece
    ensures ParseQuery(q, piece) == q && ParseQuery(q, piece + "&" + rest) == ParseQuery(q, rest)
  {
    FindNone(piece, '=');
    FindNone(piece, '&');
    FindPast(piece, '&', rest);
    hide Find;
  }
}
