/** One chat exchange, its queue text, its table rows and the consumer that persists it. */
module ChatMessage {
  import opened Json
  import opened Optional
  import opened MqClient

  const INT_MAX: int := 0x7fff_ffff
  const LLONG_MAX: int := 0x7fff_ffff_ffff_ffff

  datatype Exchange = Exchange(
    messageId: string, userId: int, username: string, sessionId: string, question: string, answer: string, ts: int)

  predicate HexDigit(c: char) { '0' <= c <= '9' || 'a' <= c <= 'f' }

  /** The schema bounds every queued exchange must meet. */
  predicate InBounds(x: Exchange) {
    && 0 < x.userId <= INT_MAX && 0 <= x.ts < LLONG_MAX - 1
    && |x.messageId| == 32 && (forall i :: 0 <= i < 32 ==> HexDigit(x.messageId[i]))
    && 0 < |x.username| <= 128 && 0 < |x.sessionId| <= 64
    && 0 < |x.question| <= 65535 && 0 < |x.answer| <= 65535
  }

  function ToJson(x: Exchange): Json {
    Obj(map["v" := Int(1), "message_id" := Str(x.messageId), "user_id" := Int(x.userId),
            "username" := Str(x.username), "session_id" := Str(x.sessionId), "question" := Str(x.question),
            "answer" := Str(x.answer), "ts" := Int(x.ts)])
  }

  function Serialize(codec: Codec, x: Exchange): Option<string> { codec.dump(ToJson(x)) }

  function Member(j: Json, key: string): Json
    requires j.Obj?
  {
    if key in j.fields then j.fields[key] else Null
  }

  /** The checks of the parser; None stands for its one exception. */
  function FromJson(j: Json): Option<Exchange> {
    if !j.Obj? then None
    else if Member(j, "v") != Int(1) || !Member(j, "user_id").Int? || !Member(j, "ts").Int? then None
    else if !Member(j, "message_id").Str? || !Member(j, "username").Str? || !Member(j, "session_id").Str? ||
            !Member(j, "question").Str? || !Member(j, "answer").Str? then None
    else
      var x := Exchange(Member(j, "message_id").s, ToInt64(Member(j, "user_id").n), Member(j, "username").s,
                        Member(j, "session_id").s, Member(j, "question").s, Member(j, "answer").s,
                        ToInt64(Member(j, "ts").n));
      if InBounds(x) then Some(x) else None
  }

  function Parse(codec: Codec, body: string): Option<Exchange> {
    match codec.parse(body)
    case None => None
    case Some(j) => FromJson(j)
  }

  /** Serialising and parsing give the exchange back, exactly when it meets the bounds. */
  lemma ParseSerialize(codec: Codec, x: Exchange)
    requires Lawful(codec) && Serialize(codec, x).Some?
    requires -TWO_31 <= x.userId < TWO_31 && -TWO_63 <= x.ts < TWO_63
    ensures Parse(codec, Serialize(codec, x).value) == if InBounds(x) then Some(x) else None
  {
    var j := ToJson(x);
    assert codec.parse(codec.dump(j).value) == Some(j);
    assert FromJson(j) == if InBounds(x) then Some(x) else None;
  }

  /** What fits the schema: a user, a 32-digit lower-case hexadecimal id, the lengths of the columns, and
      two times of 63 bits. */
  ghost predicate Fits(x: Exchange) {
    && 1 <= x.userId <= 2147483647 && 0 <= x.ts <= 9223372036854775805
    && |x.messageId| == 32 && (forall c :: c in x.messageId ==> c in "0123456789abcdef")
    && 1 <= |x.username| <= 128 && 1 <= |x.sessionId| <= 64 && 1 <= |x.question| <= 65535 && 1 <= |x.answer| <= 65535
  }

  ghost predicate NumberField(j: Json, key: string, n: int)
    requires j.Obj?
  {
    key in j.fields && j.fields[key].Int? && ToInt64(j.fields[key].n) == n
  }

  ghost predicate TextField(j: Json, key: string, text: string)
    requires j.Obj?
  {
    key in j.fields && j.fields[key] == Str(text)
  }

  lemma HexDigits(s: string)
    ensures (forall i :: 0 <= i < |s| ==> HexDigit(s[i])) <==> forall c :: c in s ==> c in "0123456789abcdef"
  {
    forall c: char ensures HexDigit(c) <==> c in "0123456789abcdef" { HexAt(c); }
    forall i | 0 <= i < |s| && (forall c :: c in s ==> c in "0123456789abcdef") ensures HexDigit(s[i]) {
      assert s[i] in s;
    }
  }

  lemma HexAt(c: char)
    ensures HexDigit(c) <==> c in "0123456789abcdef"
  {
    var h := "0123456789abcdef";
    if '0' <= c <= '9' { assert h[c as int - '0' as int] == c; }
    if 'a' <= c <= 'f' { assert h[c as int - 'a' as int + 10] == c; }
  }

  lemma FitsBounds(x: Exchange)
    ensures Fits(x) <==> InBounds(x)
  {
    HexDigits(x.messageId);
  }

  /** A text is taken as an exchange exactly if it is an object of version 1 whose members spell a
      fitting exchange; other members are ignored. */
  lemma ParsesExactly(j: Json, x: Exchange)
    ensures FromJson(j) == Some(x) <==>
      && j.Obj? && "v" in j.fields && j.fields["v"] == Int(1) && Fits(x)
      && NumberField(j, "user_id", x.userId) && NumberField(j, "ts", x.ts)
      && TextField(j, "message_id", x.messageId) && TextField(j, "username", x.username)
      && TextField(j, "session_id", x.sessionId) && TextField(j, "question", x.question) && TextField(j, "answer", x.answer)
  {
    FitsBounds(x);
    hide InBounds, Fits;
  }

  /** The retry counter is not part of the message. */
  lemma AttemptIgnored(j: Json, n: int)
    requires j.Obj?
    ensures FromJson(WithNumber(j, "_attempt", n)) == FromJson(j)
  {
    var k := WithNumber(j, "_attempt", n);
    assert forall key :: key != "_attempt" ==> Member(k, key) == Member(j, key);
    assert |"_attempt"| == 8 && |"username"| == 8 && "username"[0] == 'u' && "_attempt"[0] == '_';
    assert "_attempt" != "username";
    assert |"user_id"| == 7 && |"question"| == 8 && "question"[0] == 'q';
    assert |"session_id"| == 10 && |"message_id"| == 10 && |"answer"| == 6 && |"ts"| == 2 && |"v"| == 1;
  }

  // ---- Retry chains ---------------------------------------------------------------------------------

  /** The body after `n` retries that all went back to the work queue; None once one did not. */
  ghost function Retried(codec: Codec, name: string, body: string, n: nat): Option<string> {
    if n == 0 then Some(body)
    else
      match Retried(codec, name, body, n - 1)
      case None => None
      case Some(b) =>
        var r := Replacement(codec, name, Disposition.Retry, b);
        if r.queue == name then Some(r.body) else None
  }

  /** The attempt counter of a text that is an object with a usable counter. */
  ghost function AttemptOf(codec: Codec, body: string): Option<int> {
    match codec.parse(body)
    case None => None
    case Some(j) => Attempt(j)
  }

  lemma {:induction false} ShiftIsPower(attempt: nat)
    ensures attempt < 5 ==> Shift(attempt) == [1, 2, 4, 8, 16][attempt] && Min(30, Shift(attempt)) == Shift(attempt)
  {
    if 0 < attempt < 5 { ShiftIsPower(attempt - 1); }
  }

  /** A retry with a counter in 0..4 goes back to the work queue with the counter one higher, the
      same message and a delay of 2^attempt; any other goes to the dead queue unchanged. */
  lemma RetryStep(codec: Codec, name: string, body: string)
    requires Lawful(codec)
    ensures var r := Replacement(codec, name, Disposition.Retry, body);
      match AttemptOf(codec, body)
      case Some(a) =>
        if 0 <= a < 5 then
          && r.queue == name && AttemptOf(codec, r.body) == Some(a + 1)
          && Parse(codec, r.body) == Parse(codec, body) && r.delay == Shift(a)
        else r == Copy(name + ".dead", body, 0)
      case None => r == Copy(name + ".dead", body, 0)
  {
    var a := AttemptOf(codec, body);
    if a.Some? && 0 <= a.value < 5 {
      var job := codec.parse(body).value;
      var k := WithNumber(job, "_attempt", a.value + 1);
      assert codec.dump(k).Some?;
      assert codec.parse(codec.dump(k).value) == Some(k);
      AttemptIgnored(job, a.value + 1);
      ShiftIsPower(a.value);
    }
  }

  /** The counter of a body that has none is 0; a truth value counts 1 or 0, and a fraction its whole part. */
  ghost predicate CountsTo(fields: map<string, Json>, n: int) {
    if "_attempt" !in fields then n == 0
    else
      match fields["_attempt"]
      case Int(m) => n == m
      case Bool(b) => n == if b then 1 else 0
      case Float(r) => if r >= 0.0 then n as real <= r < (n + 1) as real else (n - 1) as real < r <= n as real
      case _ => false
  }

  lemma WholePart(r: real, n: int)
    requires if r >= 0.0 then n as real <= r < (n + 1) as real else (n - 1) as real < r <= n as real
    ensures Truncate(r) == n
  {
    if r < 0.0 { assert (-r).Floor == -n; }
  }

  lemma CountIsAttempt(fields: map<string, Json>, n: int)
    requires CountsTo(fields, n) && -TWO_31 <= n < TWO_31
    ensures Attempt(Obj(fields)) == Some(n)
  {
    if "_attempt" in fields && fields["_attempt"].Float? { WholePart(fields["_attempt"].r, n); }
  }

  /** By its text: a retried object that counts to n goes back to the work queue
      with every other member kept, its counter n + 1 and a delay of 1, 2, 4, 8 or 16 seconds, if n is
      0 to 4; every other text goes to the dead queue as it is, at once. */
  lemma RetryExact(codec: Codec, name: string, body: string)
    requires Lawful(codec)
    ensures var r, j := Replacement(codec, name, Disposition.Retry, body), codec.parse(body);
      && (forall n: int :: j.Some? && j.value.Obj? && CountsTo(j.value.fields, n) && 0 <= n < 5 ==>
            && r.queue == name && r.delay == [1, 2, 4, 8, 16][n]
            && codec.parse(r.body) == Some(Obj(j.value.fields["_attempt" := Int(n + 1)])))
      && (j.None? || !j.value.Obj? ==> r == Copy(name + ".dead", body, 0))
      && (forall n: int :: j.Some? && j.value.Obj? && CountsTo(j.value.fields, n) && -TWO_31 <= n < TWO_31 && !(0 <= n < 5) ==>
            r == Copy(name + ".dead", body, 0))
      && (j.Some? && j.value.Obj? && "_attempt" in j.value.fields ==>
            var a := j.value.fields["_attempt"];
            (a.Str? || a.Null? || a.Arr? || a.Obj? ==> r == Copy(name + ".dead", body, 0)))
  {
    var j := codec.parse(body);
    if j.Some? && j.value.Obj? && Attempt(j.value).Some? && 0 <= Attempt(j.value).value < 5 {
      var a := Attempt(j.value).value;
      var k := WithNumber(j.value, "_attempt", a + 1);
      assert codec.dump(k).Some?;
      assert codec.parse(codec.dump(k).value) == Some(k);
      ShiftIsPower(a);
    }
    if j.Some? && j.value.Obj? {
      assert j.value == Obj(j.value.fields);
      forall n: int | CountsTo(j.value.fields, n) && -TWO_31 <= n < TWO_31 ensures Attempt(j.value) == Some(n) {
        CountIsAttempt(j.value.fields, n);
      }
    }
    hide CountsTo;
  }

  /** A rejected body goes to the dead queue as it is, at once, whatever it is. */
  lemma RejectExact(codec: Codec, name: string, body: string)
    ensures var r := Replacement(codec, name, Disposition.Reject, body);
      r.queue == name + ".dead" && r.body == body && r.delay == 0
  {
  }

  /** A chain of retries reaches the work queue `n` times exactly when the counter allows it, so
      no chain is longer than five; and every copy is the same message. */
  lemma {:induction false} RetryChain(codec: Codec, name: string, body: string, n: nat)
    requires Lawful(codec)
    ensures Retried(codec, name, body, n).Some? <==>
              n == 0 || (AttemptOf(codec, body).Some? && 0 <= AttemptOf(codec, body).value <= 5 - n)
    ensures Retried(codec, name, body, n).Some? ==> Parse(codec, Retried(codec, name, body, n).value) == Parse(codec, body)
    ensures n > 0 && Retried(codec, name, body, n).Some? ==>
              AttemptOf(codec, Retried(codec, name, body, n).value) == Some(AttemptOf(codec, body).value + n)
  {
    if n > 0 {
      RetryChain(codec, name, body, n - 1);
      if Retried(codec, name, body, n - 1).Some? {
        var b := Retried(codec, name, body, n - 1).value;
        RetryStep(codec, name, b);
        assert |name + ".dead"| > |name|;
      }
    }
  }

  // ---- Table ----------------------------------------------------------------------------------------

  datatype Row = Row(
    messageId: Option<string>, id: int, username: string, sessionId: string, isUser: int, content: string, ts: int)

  function UserRow(x: Exchange): Row {
    Row(Some(x.messageId + "/u"), x.userId, x.username, x.sessionId, 1, x.question, x.ts)
  }

  function AnswerRow(x: Exchange): Row {
    Row(Some(x.messageId + "/a"), x.userId, x.username, x.sessionId, 0, x.answer, x.ts + 1)
  }

  predicate HasKey(table: seq<Row>, key: string) {
    exists i :: 0 <= i < |table| && table[i].messageId == Some(key)
  }

  /** INSERT ... ON DUPLICATE KEY UPDATE message_id = message_id, for one row. */
  function InsertRow(table: seq<Row>, row: Row): seq<Row> {
    if row.messageId.Some? && HasKey(table, row.messageId.value) then table else table + [row]
  }

  /** Both rows go in with one atomic statement. */
  function Persist(table: seq<Row>, x: Exchange): seq<Row> {
    InsertRow(InsertRow(table, UserRow(x)), AnswerRow(x))
  }

  /** How a persist call ends: reported done, failed without effect, or failed after its commit. */
  datatype Database = Works | FailsBefore | FailsAfter

  /** The table and the answer after one call of the consumer. */
  function Executed(codec: Codec, table: seq<Row>, body: string, db: Database): (seq<Row>, Disposition) {
    match Parse(codec, body)
    case None => (table, Disposition.Reject)
    case Some(x) =>
      (if db.FailsBefore? then table else Persist(table, x), if db.Works? then Disposition.Ack else Disposition.Retry)
  }

  /** The consumer: persist and Ack, quarantine what does not parse, retry database failures. */
  method ExecuteMysql(codec: Codec, table: seq<Row>, body: string, db: Database)
    returns (after: seq<Row>, result: Disposition)
    ensures (after, result) == Executed(codec, table, body, db)
  {
    var exchange := Parse(codec, body);
    match exchange
    case None => after, result := table, Disposition.Reject;
    case Some(x) =>
      if db.FailsBefore? {
        after, result := table, Disposition.Retry;
      } else {
        after := Persist(table, x);
        result := if db.Works? then Disposition.Ack else Disposition.Retry;
      }
  }

  lemma Inserted(table: seq<Row>, row: Row)
    requires row.messageId.Some?
    ensures HasKey(InsertRow(table, row), row.messageId.value)
    ensures table <= InsertRow(table, row)
  {
    if !HasKey(table, row.messageId.value) {
      assert (table + [row])[|table|].messageId == row.messageId;
    }
  }

  /** Nothing is ever taken out of the table. Ack is answered exactly for a body that parses while the
      database works, and then a row is there under each of the exchange's keys; Reject exactly for what
      does not parse; what parses is retried when the database fails. Nothing is added for the others,
      nor by a call that failed before its commit. */
  lemma ExecutedMeans(codec: Codec, table: seq<Row>, body: string, db: Database)
    ensures var (after, result) := Executed(codec, table, body, db);
      && table <= after
      && (result == Disposition.Reject <==> Parse(codec, body).None?)
      && (result == Disposition.Ack <==> Parse(codec, body).Some? && db == Works)
      && (result == Disposition.Reject || db == FailsBefore ==> after == table)
      && (Parse(codec, body).Some? && db != FailsBefore ==>
            var id := Parse(codec, body).value.messageId; HasKey(after, id + "/u") && HasKey(after, id + "/a"))
      && (result == Disposition.Ack ==>
            var id := Parse(codec, body).value.messageId; HasKey(after, id + "/u") && HasKey(after, id + "/a"))
  {
    if Parse(codec, body).Some? {
      var x := Parse(codec, body).value;
      Inserted(table, UserRow(x));
      Inserted(InsertRow(table, UserRow(x)), AnswerRow(x));
      var t := Persist(table, x);
      var i :| 0 <= i < |InsertRow(table, UserRow(x))| && InsertRow(table, UserRow(x))[i].messageId == UserRow(x).messageId;
      assert t[i].messageId == UserRow(x).messageId;
    }
  }

  /** The two rows are what was said, by whom, and when, and they tell the exchange. */
  lemma RowsTell(x: Exchange, y: Exchange)
    requires UserRow(x) == UserRow(y) && AnswerRow(x) == AnswerRow(y)
    ensures x == y
  {
    var a, b := UserRow(x).messageId.value, UserRow(y).messageId.value;
    assert a[..|a| - 2] == x.messageId && b[..|b| - 2] == y.messageId;
  }

  /** Persisting a second time changes nothing, whatever happened in between. */
  lemma PersistAgain(table: seq<Row>, more: seq<Row>, x: Exchange)
    ensures Persist(Persist(table, x) + more, x) == Persist(table, x) + more
  {
    var t := Persist(table, x);
    Inserted(table, UserRow(x));
    Inserted(InsertRow(table, UserRow(x)), AnswerRow(x));
    var i :| 0 <= i < |InsertRow(table, UserRow(x))| && InsertRow(table, UserRow(x))[i].messageId == UserRow(x).messageId;
    assert t[i].messageId == UserRow(x).messageId;
    assert (t + more)[i] == t[i];
    var j :| 0 <= j < |t| && t[j].messageId == AnswerRow(x).messageId;
    assert (t + more)[j] == t[j];
  }

  /** A retried copy of a message persists to the same table as the message itself, so redelivery
      of the original and of any of its copies is harmless. */
  lemma CopyPersistsAlike(codec: Codec, name: string, body: string, n: nat, table: seq<Row>, more: seq<Row>)
    requires Lawful(codec) && Retried(codec, name, body, n).Some? && Parse(codec, body).Some?
    ensures var x := Parse(codec, body).value;
      && Parse(codec, Retried(codec, name, body, n).value) == Some(x)
      && Persist(Persist(table, x) + more, Parse(codec, Retried(codec, name, body, n).value).value) ==
         Persist(table, x) + more
  {
    RetryChain(codec, name, body, n);
    PersistAgain(table, more, Parse(codec, body).value);
  }
}
