/** The request record and the rules for its request line, header fields and query string. */
module HttpRequest {
  import opened Optional
  import opened HttpText

  const MAX_BODY: nat := 10 * 1024 * 1024

  datatype Method = Invalid | Get | Post | Head | Put | Delete | Options

  datatype Request = Request(
    verb: Method, path: string, query: map<string, string>, version: string,
    headers: map<string, string>, body: string, contentLength: nat)

  const FRESH := Request(Invalid, "", map[], "Unknown", map[], "", 0)

  function ParseMethod(m: string): Method {
    if m == "GET" then Get
    else if m == "POST" then Post
    else if m == "PUT" then Put
    else if m == "DELETE" then Delete
    else if m == "OPTIONS" then Options
    else Invalid
  }

  // ---- Query string ---------------------------------------------------------------------------------------

  /** A piece without '=' is dropped; the first '=' separates key and value. */
  function AddPair(q: map<string, string>, pair: string): map<string, string> {
    var e := Find(pair, '=');
    if e < |pair| then q[pair[..e] := pair[e + 1..]] else q
  }

  function ParseQuery(q: map<string, string>, s: string): map<string, string>
    decreases |s|
  {
    var n := Find(s, '&');
    if n < |s| then ParseQuery(AddPair(q, s[..n]), s[n + 1..]) else AddPair(q, s)
  }

  method SetQueryParameters(q: map<string, string>, argument: string) returns (r: map<string, string>)
    ensures r == ParseQuery(q, argument)
  {
    r := q;
    var prev := 0;
    var pos := Find(argument, '&');
    while prev + pos < |argument|
      invariant 0 <= prev <= |argument| && pos == Find(argument[prev..], '&')
      invariant ParseQuery(r, argument[prev..]) == ParseQuery(q, argument)
      decreases |argument| - prev
    {
      var rest := argument[prev..];
      r := AddPair(r, rest[..pos]);
      assert rest[pos + 1..] == argument[prev + pos + 1..];
      prev := prev + pos + 1;
      pos := Find(argument[prev..], '&');
    }
    r := AddPair(r, argument[prev..]);
  }

  // ---- Request line -----------------------------------------------------------------------------------------

  /** The three words of a request line; None is a rejected one. */
  function FromParts(verb: string, target: string, version: string): Option<Request> {
    if ParseMethod(verb) == Invalid || (version != "HTTP/1.1" && version != "HTTP/1.0") then None
    else
      var q := Find(target, '?');
      var query := if q < |target| then ParseQuery(map[], target[q + 1..]) else map[];
      Some(Request(ParseMethod(verb), target[..q], query, version, map[], "", 0))
  }

  /** processRequestLine on an untouched request. */
  function RequestLine(line: string): Option<Request> {
    var a := Find(line, ' ');
    if a == |line| then None
    else
      var rest := line[a + 1..];
      var b := Find(rest, ' ');
      if b == |rest| then None else FromParts(line[..a], rest[..b], rest[b + 1..])
  }

  method CheckVersion(text: string) returns (r: Option<string>)
    ensures r == if text == "HTTP/1.1" || text == "HTTP/1.0" then Some(text) else None
  {
    if !(|text| == 8 && text[..7] == "HTTP/1.") { return None; }
    assert text == "HTTP/1." + [text[7]];
    if text[7] == '1' { return Some("HTTP/1.1"); }
    if text[7] == '0' { return Some("HTTP/1.0"); }
    return None;
  }

  method ProcessRequestLine(line: string) returns (r: Option<Request>)
    ensures r == RequestLine(line)
  {
    hide Find, ParseQuery, ParseMethod;
    var a := Find(line, ' ');
    if a == |line| { return None; }
    var verb := ParseMethod(line[..a]);
    if verb == Invalid { return None; }
    var rest := line[a + 1..];
    var b := Find(rest, ' ');
    if b == |rest| { return None; }
    var target := rest[..b];
    var q := Find(target, '?');
    var query := map[];
    if q < |target| { query := SetQueryParameters(query, target[q + 1..]); }
    var version := CheckVersion(rest[b + 1..]);
    if version.None? { return None; }
    return Some(Request(verb, target[..q], query, version.value, map[], "", 0));
  }

  // ---- Header fields ------------------------------------------------------------------------------------------

  predicate TokenChar(c: char) {
    '0' <= c <= '9' || 'A' <= c <= 'Z' || 'a' <= c <= 'z' || c in "!#$%&'*+-.^_`|~"
  }

  predicate Token(s: string) { s != "" && forall i :: 0 <= i < |s| ==> TokenChar(s[i]) }

  predicate FieldText(s: string) {
    forall i :: 0 <= i < |s| ==> (s[i] >= ' ' || s[i] == '\t') && s[i] != 0x7f as char
  }

  /** One field into the header map; a second different content-length is the one conflict. */
  function PutField(h: map<string, string>, key: string, value: string): Option<map<string, string>> {
    if key == "content-length" && key in h && h[key] != value then None
    else if key == "connection" && key in h then Some(h[key := h[key] + "," + value])
    else Some(h[key := value])
  }

  function AddHeader(req: Request, line: string, colon: nat): Option<Request>
    requires colon < |line|
  {
    var name, value := line[..colon], Trim(line[colon + 1..]);
    if !Token(name) || !FieldText(value) then None
    else
      match PutField(req.headers, Lower(name), value)
      case None => None
      case Some(h) => Some(req.(headers := h))
  }

  /** Checks a field name and lowers it, failing at the first character that is no token. */
  method LowerName(name: string) returns (r: Option<string>)
    ensures r == if Token(name) then Some(Lower(name)) else None
  {
    if name == "" { return None; }
    var key := "";
    var i := 0;
    while i < |name|
      invariant 0 <= i <= |name|
      invariant forall j :: 0 <= j < i ==> TokenChar(name[j])
      invariant Lower(name) == key + Lower(name[i..])
    {
      if !TokenChar(name[i]) { return None; }
      assert name[i..][1..] == name[i + 1..];
      key := key + [LowerChar(name[i])];
      i := i + 1;
    }
    assert name[i..] == "" && key + "" == key;
    return Some(key);
  }

  /** Moves both ends of a value inward over blanks. */
  method TrimValue(s: string) returns (value: string)
    ensures value == Trim(s)
  {
    var begin := 0;
    while begin < |s| && Blank(s[begin])
      invariant 0 <= begin <= |s|
      invariant TrimLeft(s) == TrimLeft(s[begin..])
    {
      assert s[begin..][1..] == s[begin + 1..];
      begin := begin + 1;
    }
    var t := s[begin..];
    var end := |t|;
    assert t[..end] == t;
    while end > 0 && Blank(t[end - 1])
      invariant 0 <= end <= |t|
      invariant TrimRight(t) == TrimRight(t[..end])
    {
      assert t[..end][..end - 1] == t[..end - 1];
      end := end - 1;
    }
    value := t[..end];
  }

  method CheckText(value: string) returns (ok: bool)
    ensures ok == FieldText(value)
  {
    var i := 0;
    while i < |value|
      invariant 0 <= i <= |value|
      invariant forall j :: 0 <= j < i ==> (value[j] >= ' ' || value[j] == '\t') && value[j] != 0x7f as char
    {
      if (value[i] < ' ' && value[i] != '\t') || value[i] == 0x7f as char { return false; }
      i := i + 1;
    }
    return true;
  }

  method AddHeaderField(req: Request, line: string, colon: nat) returns (r: Option<Request>)
    requires colon < |line|
    ensures r == AddHeader(req, line, colon)
  {
    var lowered := LowerName(line[..colon]);
    if lowered.None? { return None; }
    var key := lowered.value;
    var value := TrimValue(line[colon + 1..]);
    var text := CheckText(value);
    if !text { return None; }
    if key == "content-length" && key in req.headers && req.headers[key] != value { return None; }
    if key == "connection" && key in req.headers {
      return Some(req.(headers := req.headers[key := req.headers[key] + "," + value]));
    }
    return Some(req.(headers := req.headers[key := value]));
  }

  /** The decision at the blank line: None rejects, Some carries the body length. */
  function BodyLength(req: Request): Option<nat> {
    if "transfer-encoding" in req.headers then None
    else if "content-length" in req.headers then
      var text := req.headers["content-length"];
      if text == "" then None else Accumulate(text, MAX_BODY)
    else if req.verb == Post || req.verb == Put then None
    else Some(0)
  }

  /** Content-Length is accepted exactly when it is non-empty, all digits and at most 10485760. */
  lemma ContentLengthExact(req: Request)
    requires "transfer-encoding" !in req.headers && "content-length" in req.headers
    ensures var text := req.headers["content-length"];
      && (BodyLength(req).Some? <==> text != "" && AllDigits(text) && Value(text) <= 10485760)
      && (BodyLength(req).Some? ==> BodyLength(req).value == Value(text))
  {
    AccumulateExact(req.headers["content-length"], MAX_BODY);
  }
}
