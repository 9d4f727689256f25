/** Committing exchanges, and rebuilding every conversation from the table after a restart. */
module ChatHistory {
  import opened Json
  import opened Optional
  import opened ChatMessage

  // ---- One conversation -------------------------------------------------------------------------------

  datatype Message = Message(content: string, ts: int)

  datatype Chat = Chat(messages: seq<Message>, roles: seq<bool>)

  const EMPTY_CHAT := Chat([], [])

  /** What validateCanonicalHistory accepts. */
  predicate Canonical(c: Chat) {
    && |c.messages| == |c.roles| && |c.messages| % 2 == 0
    && forall i :: 0 <= i < |c.roles| ==> c.roles[i] == (i % 2 == 0)
  }

  datatype Request = Request(
    userId: int, username: string, sessionId: string, question: string, answer: string,
    messageId: string, now: int, admitted: bool)

  datatype Commit = Refused | Committed(chat: Chat, exchange: Exchange)

  function Max(a: int, b: int): int { if a < b then b else a }

  /** commitExchange: the new chat and the queued exchange, or no change at all. */
  function CommitExchange(codec: Codec, c: Chat, q: Request): Commit {
    var n := |c.messages|;
    if n > 0 && c.messages[n - 1].ts >= LLONG_MAX - 2 then Refused
    else
      var ts := if n == 0 then q.now else Max(q.now, c.messages[n - 1].ts + 1);
      var x := Exchange(q.messageId, q.userId, q.username, q.sessionId, q.question, q.answer, ts);
      match Serialize(codec, x)
      case None => Refused
      case Some(body) =>
        if Parse(codec, body).None? || !q.admitted then Refused
        else Committed(Chat(c.messages + [Message(q.question, ts), Message(q.answer, ts + 1)],
                            c.roles + [true, false]), x)
  }

  // ---- What a commit is ---------------------------------------------------------------------------------

  /** `t` may be the time of the next question of `c`, asked at `now`. */
  ghost predicate MayBeAt(c: Chat, now: int, t: int) {
    now <= t && forall m :: m in c.messages ==> m.ts < t
  }

  /** The first such time: the clock, unless the conversation is already there or beyond. */
  ghost predicate FirstTime(c: Chat, now: int, t: int) {
    MayBeAt(c, now, t) && forall u :: MayBeAt(c, now, u) ==> t <= u
  }

  ghost predicate InOrder(c: Chat) {
    forall i, j :: 0 <= i < j < |c.messages| ==> c.messages[i].ts < c.messages[j].ts
  }

  /** The time a commit gives a question. */
  ghost function TimeOf(c: Chat, now: int): int {
    if c.messages == [] || c.messages[|c.messages| - 1].ts < now then now else c.messages[|c.messages| - 1].ts + 1
  }

  lemma TimeIsFirst(c: Chat, now: int)
    requires InOrder(c)
    ensures FirstTime(c, now, TimeOf(c, now))
  {
    var n, t := |c.messages|, TimeOf(c, now);
    assert MayBeAt(c, now, t);
    if n > 0 { assert c.messages[n - 1] in c.messages; }
  }

  lemma OneFirstTime(c: Chat, now: int, t: int, u: int)
    requires FirstTime(c, now, t) && FirstTime(c, now, u)
    ensures t == u
  {
  }

  /** A commit stores question and answer at the first time that is neither before the clock nor at or
      before any message of the conversation, and publishes exactly that. */
  lemma CommitMeans(codec: Codec, c: Chat, q: Request)
    requires InOrder(c) && CommitExchange(codec, c, q).Committed?
    ensures var m := CommitExchange(codec, c, q); var t := m.exchange.ts;
      && FirstTime(c, q.now, t)
      && m.exchange == Exchange(q.messageId, q.userId, q.username, q.sessionId, q.question, q.answer, t)
      && m.chat.messages == c.messages + [Message(q.question, t), Message(q.answer, t + 1)]
      && m.chat.roles == c.roles + [true, false]
  {
    TimeIsFirst(c, q.now);
    assert CommitExchange(codec, c, q).exchange.ts == TimeOf(c, q.now);
  }

  /** A commit is refused exactly if the broker's client does not admit it, the conversation is at the end
      of time, its text cannot be printed, or it does not fit the schema. */
  lemma RefusedExactly(codec: Codec, c: Chat, q: Request, t: int)
    requires Lawful(codec) && InOrder(c) && FirstTime(c, q.now, t)
    requires -TWO_31 <= q.userId < TWO_31 && -TWO_63 <= q.now < TWO_63 && forall m :: m in c.messages ==> m.ts < TWO_63
    ensures var x := Exchange(q.messageId, q.userId, q.username, q.sessionId, q.question, q.answer, t);
      CommitExchange(codec, c, q).Refused? <==>
        || !q.admitted
        || (c.messages != [] && c.messages[|c.messages| - 1].ts >= 9223372036854775805)
        || codec.dump(ToJson(x)).None?
        || !Fits(x)
  {
    var x := Exchange(q.messageId, q.userId, q.username, q.sessionId, q.question, q.answer, t);
    TimeIsFirst(c, q.now);
    OneFirstTime(c, q.now, t, TimeOf(c, q.now));
    FitsBounds(x);
    if c.messages != [] { assert c.messages[|c.messages| - 1] in c.messages; }
    if codec.dump(ToJson(x)).Some? && !(c.messages != [] && c.messages[|c.messages| - 1].ts >= LLONG_MAX - 2) {
      ParseSerialize(codec, x);
    }
    hide FirstTime, InOrder, InBounds, Parse, Fits;
  }

  class AIHelper {
    var messages: seq<Message>
    var messageRoles: seq<bool>

    function View(): Chat
      reads this
    {
      Chat(messages, messageRoles)
    }

    constructor ()
      ensures View() == EMPTY_CHAT
    {
      messages, messageRoles := [], [];
    }

    method RestoreMessage(content: string, ms: int, isUser: bool)
      modifies this
      ensures View() == Chat(old(messages) + [Message(content, ms)], old(messageRoles) + [isUser])
    {
      messageRoles := messageRoles + [isUser];
      messages := messages + [Message(content, ms)];
    }

    method ValidateCanonicalHistory() returns (ok: bool)
      ensures ok <==> Canonical(View())
    {
      if |messages| != |messageRoles| || |messages| % 2 != 0 { return false; }
      var i := 0;
      while i < |messageRoles|
        invariant 0 <= i <= |messageRoles|
        invariant forall j :: 0 <= j < i ==> messageRoles[j] == (j % 2 == 0)
      {
        if messageRoles[i] != (i % 2 == 0) { return false; }
        i := i + 1;
      }
      return true;
    }

    /** `published` is the queue text handed to the broker, None when the call throws. */
    method Commit(codec: Codec, q: Request) returns (published: Option<Exchange>)
      modifies this
      ensures match CommitExchange(codec, old(View()), q)
              case Refused => published.None? && View() == old(View())
              case Committed(chat, x) => published == Some(x) && View() == chat
    {
      var n := |messages|;
      if n > 0 && messages[n - 1].ts >= LLONG_MAX - 2 { return None; }
      var ts := if n == 0 then q.now else Max(q.now, messages[n - 1].ts + 1);
      var x := Exchange(q.messageId, q.userId, q.username, q.sessionId, q.question, q.answer, ts);
      var body := Serialize(codec, x);
      if body.None? { return None; }
      if Parse(codec, body.value).None? { return None; }
      var updated := messages + [Message(q.question, ts), Message(q.answer, ts + 1)];
      var updatedRoles := messageRoles + [true, false];
      if !q.admitted { return None; }
      messages, messageRoles := updated, updatedRoles;
      return Some(x);
    }
  }

  // ---- All conversations --------------------------------------------------------------------------------

  datatype Key = Key(user: int, session: string)

  /** The live histories and the log of everything queued. */
  datatype World = World(chats: map<Key, Chat>, log: seq<Exchange>)

  function ChatAt(w: World, k: Key): Chat { if k in w.chats then w.chats[k] else EMPTY_CHAT }

  function Step(codec: Codec, w: World, q: Request): World {
    var k := Key(q.userId, q.sessionId);
    match CommitExchange(codec, ChatAt(w, k), q)
    case Refused => w
    case Committed(chat, x) => World(w.chats[k := chat], w.log + [x])
  }

  /** Any interleaving of commits, from empty sessions. */
  function Run(codec: Codec, qs: seq<Request>): World {
    if qs == [] then World(map[], [])
    else Step(codec, Run(codec, qs[..|qs| - 1]), qs[|qs| - 1])
  }

  /** The C++ types of a request's fields, and a lawful codec. */
  ghost predicate Typed(codec: Codec, qs: seq<Request>) {
    Lawful(codec) && forall i :: 0 <= i < |qs| ==> -TWO_31 <= qs[i].userId < TWO_31 && -TWO_63 <= qs[i].now < TWO_63
  }

  function KeyOf(x: Exchange): Key { Key(x.userId, x.sessionId) }

  function RowKey(r: Row): Key { Key(r.id, r.sessionId) }

  /** The rows of one conversation in commit order. */
  ghost function Rows(log: seq<Exchange>, k: Key): seq<Row> {
    if log == [] then []
    else
      var x := log[|log| - 1];
      Rows(log[..|log| - 1], k) + (if KeyOf(x) == k then [UserRow(x), AnswerRow(x)] else [])
  }

  /** The chat that a row sequence spells out. */
  ghost function ChatOf(rows: seq<Row>): (c: Chat)
    ensures |c.messages| == |rows| && |c.roles| == |rows|
  {
    if rows == [] then EMPTY_CHAT
    else
      var r, c := rows[|rows| - 1], ChatOf(rows[..|rows| - 1]);
      Chat(c.messages + [Message(r.content, r.ts)], c.roles + [r.isUser == 1])
  }

  ghost predicate Increasing(rows: seq<Row>) {
    forall i, j :: 0 <= i < j < |rows| ==> rows[i].ts < rows[j].ts
  }

  /** The books of a world agree: each history is its log, in strictly increasing time. */
  ghost predicate Books(w: World) {
    && (forall i :: 0 <= i < |w.log| ==> InBounds(w.log[i]) && KeyOf(w.log[i]) in w.chats)
    && (forall k :: k in w.chats ==> Rows(w.log, k) != [])
    && (forall k :: ChatAt(w, k) == ChatOf(Rows(w.log, k)) && Increasing(Rows(w.log, k)) && Canonical(ChatAt(w, k)))
  }

  lemma ChatOfTwo(rows: seq<Row>, a: Row, b: Row)
    ensures ChatOf(rows + [a, b]) ==
      Chat(ChatOf(rows).messages + [Message(a.content, a.ts), Message(b.content, b.ts)],
           ChatOf(rows).roles + [a.isUser == 1, b.isUser == 1])
  {
    var s := rows + [a, b];
    assert s[..|s| - 1] == rows + [a];
    assert (rows + [a])[..|rows + [a]| - 1] == rows;
  }

  lemma LastTime(rows: seq<Row>)
    requires rows != []
    ensures ChatOf(rows).messages[|rows| - 1].ts == rows[|rows| - 1].ts
  {}

  /** A committed exchange extends its conversation in step with its rows. */
  lemma CommittedBook(codec: Codec, c: Chat, rows: seq<Row>, q: Request)
    requires c == ChatOf(rows) && Increasing(rows) && Canonical(c) && CommitExchange(codec, c, q).Committed?
    ensures var m := CommitExchange(codec, c, q); var more := rows + [UserRow(m.exchange), AnswerRow(m.exchange)];
      m.chat == ChatOf(more) && Increasing(more) && Canonical(m.chat)
  {
    var m := CommitExchange(codec, c, q);
    ChatOfTwo(rows, UserRow(m.exchange), AnswerRow(m.exchange));
    if rows != [] { LastTime(rows); }
  }

  lemma StepBooks(codec: Codec, w: World, q: Request)
    requires Books(w) && Lawful(codec) && -TWO_31 <= q.userId < TWO_31 && -TWO_63 <= q.now < TWO_63
    ensures Books(Step(codec, w, q))
  {
    var k := Key(q.userId, q.sessionId);
    var m := CommitExchange(codec, ChatAt(w, k), q);
    if m.Committed? {
      CommittedBook(codec, ChatAt(w, k), Rows(w.log, k), q);
      CommittedInBounds(codec, w, q);
      GrownBooks(w, m.chat, m.exchange);
    }
  }

  lemma RowsGrow(log: seq<Exchange>, x: Exchange, k: Key)
    ensures Rows(log + [x], k) == Rows(log, k) + (if KeyOf(x) == k then [UserRow(x), AnswerRow(x)] else [])
  {
    assert (log + [x])[..|log + [x]| - 1] == log;
  }

  lemma GrownBooks(w: World, chat: Chat, x: Exchange)
    requires Books(w) && InBounds(x)
    requires var more := Rows(w.log, KeyOf(x)) + [UserRow(x), AnswerRow(x)];
      chat == ChatOf(more) && Increasing(more) && Canonical(chat)
    ensures Books(World(w.chats[KeyOf(x) := chat], w.log + [x]))
  {
    var v := World(w.chats[KeyOf(x) := chat], w.log + [x]);
    forall k
      ensures ChatAt(v, k) == ChatOf(Rows(v.log, k)) && Increasing(Rows(v.log, k)) && Canonical(ChatAt(v, k))
      ensures k in v.chats ==> Rows(v.log, k) != []
    {
      RowsGrow(w.log, x, k);
      assert ChatAt(w, k) == ChatOf(Rows(w.log, k)) && Increasing(Rows(w.log, k)) && Canonical(ChatAt(w, k));
      assert Rows(w.log, k) + [] == Rows(w.log, k);
    }
  }

  lemma CommittedInBounds(codec: Codec, w: World, q: Request)
    requires Books(w) && Lawful(codec) && -TWO_31 <= q.userId < TWO_31 && -TWO_63 <= q.now < TWO_63
    requires CommitExchange(codec, ChatAt(w, Key(q.userId, q.sessionId)), q).Committed?
    ensures InBounds(CommitExchange(codec, ChatAt(w, Key(q.userId, q.sessionId)), q).exchange)
  {
    var c := ChatAt(w, Key(q.userId, q.sessionId));
    var x := CommitExchange(codec, c, q).exchange;
    TimesInRange(w, Key(q.userId, q.sessionId));
    ParseSerialize(codec, x);
  }

  /** Stored times are those of bounded exchanges, so one more millisecond never overflows. */
  lemma TimesInRange(w: World, k: Key)
    requires Books(w)
    ensures forall i :: 0 <= i < |ChatAt(w, k).messages| ==> 0 <= ChatAt(w, k).messages[i].ts < LLONG_MAX
  {
    RowTimes(w.log, k);
    ChatTimes(Rows(w.log, k));
  }

  lemma {:induction false} RowTimes(log: seq<Exchange>, k: Key)
    requires forall i :: 0 <= i < |log| ==> InBounds(log[i])
    ensures forall i :: 0 <= i < |Rows(log, k)| ==> 0 <= Rows(log, k)[i].ts < LLONG_MAX
  {
    if log != [] { RowTimes(log[..|log| - 1], k); }
  }

  lemma {:induction false} ChatTimes(rows: seq<Row>)
    ensures forall i :: 0 <= i < |rows| ==> ChatOf(rows).messages[i].ts == rows[i].ts
  {
    if rows != [] { ChatTimes(rows[..|rows| - 1]); }
  }

  lemma {:induction false} RunBooks(codec: Codec, qs: seq<Request>)
    requires Typed(codec, qs)
    ensures Books(Run(codec, qs))
  {
    if qs != [] {
      RunBooks(codec, qs[..|qs| - 1]);
      StepBooks(codec, Run(codec, qs[..|qs| - 1]), qs[|qs| - 1]);
    }
  }

  lemma BooksInOrder(w: World, k: Key)
    requires Books(w)
    ensures InOrder(ChatAt(w, k))
  {
    ChatTimes(Rows(w.log, k));
    assert ChatAt(w, k) == ChatOf(Rows(w.log, k)) && Increasing(Rows(w.log, k));
  }

  /** Over any interleaving: the next commit either changes nothing at all, or appends the question and
      the answer to its own conversation at the first time it may have, and logs exactly that. */
  lemma RunCommits(codec: Codec, qs: seq<Request>, q: Request)
    requires Typed(codec, qs + [q])
    ensures var w, v, k := Run(codec, qs), Run(codec, qs + [q]), Key(q.userId, q.sessionId);
      || v == w
      || exists t ::
          && FirstTime(ChatAt(w, k), q.now, t)
          && v.log == w.log + [Exchange(q.messageId, q.userId, q.username, q.sessionId, q.question, q.answer, t)]
          && v.chats == w.chats[k := Chat(ChatAt(w, k).messages + [Message(q.question, t), Message(q.answer, t + 1)],
                                          ChatAt(w, k).roles + [true, false])]
  {
    var w, k := Run(codec, qs), Key(q.userId, q.sessionId);
    assert (qs + [q])[..|qs + [q]| - 1] == qs;
    assert Run(codec, qs + [q]) == Step(codec, w, q);
    assert forall i :: 0 <= i < |qs| ==> qs[i] == (qs + [q])[i];
    RunBooks(codec, qs);
    BooksInOrder(w, k);
    var m := CommitExchange(codec, ChatAt(w, k), q);
    if m.Committed? {
      CommitMeans(codec, ChatAt(w, k), q);
      assert FirstTime(ChatAt(w, k), q.now, m.exchange.ts);
    }
    hide CommitExchange, Books, Run, FirstTime;
  }

  // ---- What a canonical history is ------------------------------------------------------------------------

  ghost function Alternating(n: nat): seq<bool> { if n == 0 then [] else [true, false] + Alternating(n - 1) }

  lemma {:induction false} AlternatingAt(n: nat)
    ensures |Alternating(n)| == 2 * n && forall i :: 0 <= i < 2 * n ==> Alternating(n)[i] == (i % 2 == 0)
  {
    if n > 0 { AlternatingAt(n - 1); }
  }

  /** A history is canonical exactly if its roles are question and answer in turn, one for each message. */
  lemma CanonicalMeans(c: Chat)
    ensures Canonical(c) <==> exists n: nat :: |c.messages| == 2 * n && c.roles == Alternating(n)
  {
    if Canonical(c) {
      var n := |c.messages| / 2;
      AlternatingAt(n);
      assert c.roles == Alternating(n);
    }
    if n: nat :| |c.messages| == 2 * n && c.roles == Alternating(n) {
      AlternatingAt(n);
    }
  }

  // ---- Restoring -------------------------------------------------------------------------------------

  datatype Restored = Restored(chats: map<int, map<string, Chat>>, ids: map<int, seq<string>>)

  predicate ValidRow(r: Row) { 0 < r.id <= INT_MAX && (r.isUser == 0 || r.isUser == 1) }

  function AddRow(s: Restored, r: Row): Restored {
    var sessions := if r.id in s.chats then s.chats[r.id] else map[];
    var known := r.sessionId in sessions;
    var chat := if known then sessions[r.sessionId] else EMPTY_CHAT;
    var ids := if r.id in s.ids then s.ids[r.id] else [];
    Restored(s.chats[r.id := sessions[r.sessionId := Chat(chat.messages + [Message(r.content, r.ts)],
                                                          chat.roles + [r.isUser == 1])]],
             if known then s.ids else s.ids[r.id := ids + [r.sessionId]])
  }

  /** The snapshot built from a query result; None when a row is rejected. */
  function Restore(rs: seq<Row>): Option<Restored> {
    if rs == [] then Some(Restored(map[], map[]))
    else
      match Restore(rs[..|rs| - 1])
      case None => None
      case Some(s) => if ValidRow(rs[|rs| - 1]) then Some(AddRow(s, rs[|rs| - 1])) else None
  }

  class ChatServer {
    var chatInformation: map<int, map<string, Chat>>
    var sessionsIdsMap: map<int, seq<string>>

    /** `rs` are the rows the traversal yields; `complete` is false when it throws before the end. */
    method ReadDataFromMySQL(rs: seq<Row>, complete: bool) returns (ok: bool)
      modifies this
      ensures ok <==> complete && Restore(rs).Some?
      ensures ok ==> Restored(chatInformation, sessionsIdsMap) == Restore(rs).value
      ensures !ok ==> chatInformation == old(chatInformation) && sessionsIdsMap == old(sessionsIdsMap)
    {
      var restoredChats: map<int, map<string, Chat>> := map[];
      var restoredSessionIds: map<int, seq<string>> := map[];
      var i := 0;
      while i < |rs|
        invariant 0 <= i <= |rs|
        invariant Restore(rs[..i]) == Some(Restored(restoredChats, restoredSessionIds))
      {
        var row := rs[i];
        assert rs[..i + 1][..i] == rs[..i];
        if row.id <= 0 || row.id > INT_MAX || (row.isUser != 0 && row.isUser != 1) {
          RestoreFails(rs, i + 1);
          return false;
        }
        var sessions := if row.id in restoredChats then restoredChats[row.id] else map[];
        var helper := EMPTY_CHAT;
        if row.sessionId in sessions {
          helper := sessions[row.sessionId];
        } else {
          var ids := if row.id in restoredSessionIds then restoredSessionIds[row.id] else [];
          restoredSessionIds := restoredSessionIds[row.id := ids + [row.sessionId]];
        }
        helper := Chat(helper.messages + [Message(row.content, row.ts)], helper.roles + [row.isUser == 1]);
        restoredChats := restoredChats[row.id := sessions[row.sessionId := helper]];
        i := i + 1;
      }
      assert rs[..i] == rs;
      if !complete { return false; }
      chatInformation, sessionsIdsMap := restoredChats, restoredSessionIds;
      return true;
    }
  }

  lemma {:induction false} RestoreFails(rs: seq<Row>, i: nat)
    requires i <= |rs| && Restore(rs[..i]).None?
    ensures Restore(rs).None?
    decreases |rs| - i
  {
    if i == |rs| {
      assert rs[..i] == rs;
    } else {
      assert rs[..i + 1][..i] == rs[..i];
      RestoreFails(rs, i + 1);
    }
  }

  /** One row with a user outside 1 to 2^31 - 1, or a role that is neither, spoils the whole restore;
      nothing else does. */
  lemma {:induction false} RestoreRejects(rs: seq<Row>)
    ensures Restore(rs).None? <==> exists r :: r in rs && !(1 <= r.id <= 2147483647 && r.isUser in {0, 1})
  {
    if rs != [] {
      var front, last := rs[..|rs| - 1], rs[|rs| - 1];
      RestoreRejects(front);
      assert rs == front + [last];
    }
  }

  /** The rows of one conversation in a query result. */
  ghost function Select(rs: seq<Row>, k: Key): (r: seq<Row>)
    ensures |r| <= |rs|
  {
    if rs == [] then []
    else Select(rs[..|rs| - 1], k) + (if RowKey(rs[|rs| - 1]) == k then [rs[|rs| - 1]] else [])
  }

  ghost predicate Present(s: Restored, k: Key) { k.user in s.chats && k.session in s.chats[k.user] }

  /** The session list of each user names exactly its conversations, each once. */
  ghost predicate IdsMatch(s: Restored) {
    && s.ids.Keys == s.chats.Keys
    && (forall u :: u in s.ids ==>
          && (forall id :: id in s.ids[u] <==> id in s.chats[u])
          && (forall i, j :: 0 <= i < j < |s.ids[u]| ==> s.ids[u][i] != s.ids[u][j]))
  }

  lemma AddRowIds(s: Restored, r: Row)
    requires IdsMatch(s)
    ensures IdsMatch(AddRow(s, r))
  {
    var t := AddRow(s, r);
    forall u | u in t.ids
      ensures forall id :: id in t.ids[u] <==> id in t.chats[u]
      ensures forall i, j :: 0 <= i < j < |t.ids[u]| ==> t.ids[u][i] != t.ids[u][j]
    {
      if u == r.id && r.id in s.ids {
        assert forall i :: 0 <= i < |s.ids[u]| ==> s.ids[u][i] in s.ids[u];
      }
    }
  }

  /** Restoring splits the result by conversation and keeps the order within each. */
  lemma {:induction false} RestoreSelects(rs: seq<Row>)
    requires forall i :: 0 <= i < |rs| ==> ValidRow(rs[i])
    ensures Restore(rs).Some? && IdsMatch(Restore(rs).value)
    ensures forall k :: Present(Restore(rs).value, k) <==> Select(rs, k) != []
    ensures forall k :: Present(Restore(rs).value, k) ==>
              Restore(rs).value.chats[k.user][k.session] == ChatOf(Select(rs, k))
  {
    if rs != [] {
      var front, r := rs[..|rs| - 1], rs[|rs| - 1];
      RestoreSelects(front);
      AddRowIds(Restore(front).value, r);
      var s := Restore(rs).value;
      forall k
        ensures Present(s, k) <==> Select(rs, k) != []
        ensures Present(s, k) ==> s.chats[k.user][k.session] == ChatOf(Select(rs, k))
      {
        var f := Select(front, k);
        assert Present(Restore(front).value, k) <==> f != [];
        if RowKey(r) == k {
          assert Select(rs, k) == f + [r] && (f + [r])[..|f|] == f;
        } else {
          assert Select(rs, k) == f + [] == f;
        }
      }
    }
  }

  // ---- Delivery to the table -------------------------------------------------------------------------

  /** The table after the exchanges of `ds` arrived in that order, duplicates included. */
  ghost function Table(ds: seq<Exchange>): seq<Row> {
    if ds == [] then [] else Persist(Table(ds[..|ds| - 1]), ds[|ds| - 1])
  }

  ghost predicate DistinctIds(log: seq<Exchange>) {
    forall i, j :: 0 <= i < j < |log| ==> log[i].messageId != log[j].messageId
  }

  /** Every queued exchange arrived at least once and nothing else did. */
  ghost predicate DeliveredAll(log: seq<Exchange>, ds: seq<Exchange>) {
    forall x :: x in ds <==> x in log
  }

  ghost predicate IsRowOf(r: Row, x: Exchange) { r == UserRow(x) || r == AnswerRow(x) }

  ghost predicate OneIdOneExchange(ds: seq<Exchange>) {
    forall x, y :: x in ds && y in ds && x.messageId == y.messageId ==> x == y
  }

  /** Rows of different exchanges, and the two rows of one, have different keys. */
  lemma RowIds(x: Exchange, y: Exchange, r: Row, s: Row)
    requires IsRowOf(r, x) && IsRowOf(s, y) && r.messageId == s.messageId
    requires x.messageId == y.messageId ==> x == y
    ensures r == s
  {
    var a, b := r.messageId.value, s.messageId.value;
    assert a[..|a| - 2] == x.messageId && b[..|b| - 2] == y.messageId;
    assert a[|a| - 1] == b[|b| - 1];
  }

  ghost predicate TableDistinct(t: seq<Row>) {
    forall i, j :: 0 <= i < j < |t| ==> t[i].messageId != t[j].messageId
  }

  ghost predicate TableOf(t: seq<Row>, ds: seq<Exchange>) {
    && (forall r :: r in t <==> exists x :: x in ds && IsRowOf(r, x))
    && TableDistinct(t)
  }

  lemma HasKeyIn(t: seq<Row>, ds: seq<Exchange>, x: Exchange, r: Row)
    requires (forall q :: q in t ==> exists y :: y in ds && IsRowOf(q, y)) && IsRowOf(r, x) && x in ds && OneIdOneExchange(ds)
    ensures HasKey(t, r.messageId.value) <==> r in t
  {
    if HasKey(t, r.messageId.value) {
      var i :| 0 <= i < |t| && t[i].messageId == r.messageId;
      assert t[i] in t;
      var y :| y in ds && IsRowOf(t[i], y);
      RowIds(x, y, r, t[i]);
    }
  }

  lemma {:induction false} TableHolds(ds: seq<Exchange>)
    requires OneIdOneExchange(ds)
    ensures TableOf(Table(ds), ds)
  {
    if ds != [] {
      var front, x := ds[..|ds| - 1], ds[|ds| - 1];
      assert ds == front + [x];
      assert OneIdOneExchange(front);
      TableHolds(front);
      PersistHolds(Table(front), front, x);
    }
  }

  /** Inserting a row whose key can only belong to that very row. */
  lemma InsertAdds(t: seq<Row>, r: Row)
    requires TableDistinct(t) && r.messageId.Some? && (HasKey(t, r.messageId.value) <==> r in t)
    ensures TableDistinct(InsertRow(t, r))
    ensures forall q :: q in InsertRow(t, r) <==> q in t || q == r
  {}

  lemma PersistHolds(t: seq<Row>, front: seq<Exchange>, x: Exchange)
    requires TableOf(t, front) && OneIdOneExchange(front + [x])
    ensures TableOf(Persist(t, x), front + [x])
  {
    var ds := front + [x];
    assert x in ds && forall y :: y in ds <==> y in front || y == x;
    var t1 := InsertRow(t, UserRow(x));
    PersistKeys(t, front, x);
    InsertAdds(t, UserRow(x));
    InsertAdds(t1, AnswerRow(x));
    forall r ensures r in Persist(t, x) <==> exists y :: y in ds && IsRowOf(r, y) {
      assert IsRowOf(UserRow(x), x) && IsRowOf(AnswerRow(x), x);
      if r in t { var y :| y in front && IsRowOf(r, y); assert y in ds; }
    }
  }

  lemma PersistKeys(t: seq<Row>, front: seq<Exchange>, x: Exchange)
    requires TableOf(t, front) && OneIdOneExchange(front + [x])
    ensures HasKey(t, UserRow(x).messageId.value) <==> UserRow(x) in t
    ensures var t1 := InsertRow(t, UserRow(x)); HasKey(t1, AnswerRow(x).messageId.value) <==> AnswerRow(x) in t1
  {
    var ds := front + [x];
    assert x in ds && forall y :: y in front ==> y in ds;
    forall q | q in t ensures exists y :: y in ds && IsRowOf(q, y) { var y :| y in front && IsRowOf(q, y); assert y in ds; }
    HasKeyIn(t, ds, x, UserRow(x));
    var t1 := InsertRow(t, UserRow(x));
    forall q | q in t1 ensures exists y :: y in ds && IsRowOf(q, y) {
      if q !in t { assert IsRowOf(q, x); }
    }
    HasKeyIn(t1, ds, x, AnswerRow(x));
  }

  /** The table does not depend on the order or the number of deliveries. */
  lemma TableInsensitive(ds: seq<Exchange>, es: seq<Exchange>)
    requires OneIdOneExchange(ds) && DeliveredAll(ds, es)
    ensures forall r :: r in Table(ds) <==> r in Table(es)
    ensures |Table(ds)| == |Table(es)|
  {
    TableHolds(ds);
    TableHolds(es);
    assert forall r :: r in Table(ds) <==> r in Table(es);
    SameLength(Table(ds), Table(es));
  }

  lemma {:induction false} SameLength(a: seq<Row>, b: seq<Row>)
    requires forall r :: r in a <==> r in b
    requires TableDistinct(a) && TableDistinct(b)
    ensures |a| == |b|
  {
    SetSize(a);
    SetSize(b);
    assert (set r | r in a) == (set r | r in b);
  }

  lemma {:induction false} SetSize(a: seq<Row>)
    requires TableDistinct(a)
    ensures |set r | r in a| == |a|
  {
    if a != [] {
      SetSize(a[1..]);
      assert a[0] !in a[1..];
      assert (set r | r in a) == (set r | r in a[1..]) + {a[0]};
    }
  }

  // ---- Persist then restore is the identity ------------------------------------------------------------

  /** A result of the history query: the rows of the table, ordered by time and then user. */
  ghost predicate QueryResult(rs: seq<Row>, t: seq<Row>) {
    && multiset(rs) == multiset(t)
    && forall i, j :: 0 <= i < j < |rs| ==> rs[i].ts < rs[j].ts || (rs[i].ts == rs[j].ts && rs[i].id <= rs[j].id)
  }

  lemma {:induction false} RowsHold(log: seq<Exchange>, k: Key)
    ensures forall r :: r in Rows(log, k) <==> exists x :: x in log && KeyOf(x) == k && IsRowOf(r, x)
  {
    if log != [] {
      var front, x := log[..|log| - 1], log[|log| - 1];
      RowsHold(front, k);
      assert log == front + [x];
      forall r ensures r in Rows(log, k) <==> exists y :: y in log && KeyOf(y) == k && IsRowOf(r, y) {
        if r in Rows(front, k) { var y :| y in front && KeyOf(y) == k && IsRowOf(r, y); assert y in log; }
        if y :| y in log && KeyOf(y) == k && IsRowOf(r, y) { assert y in front || y == x; }
      }
    }
  }

  /** The positions of the selected rows. */
  ghost function Places(rs: seq<Row>, k: Key): (p: seq<nat>)
    ensures |p| == |Select(rs, k)|
    ensures forall i :: 0 <= i < |p| ==> p[i] < |rs| && rs[p[i]] == Select(rs, k)[i]
    ensures forall i, j :: 0 <= i < j < |p| ==> p[i] < p[j]
  {
    if rs == [] then []
    else
      var n := |rs| - 1;
      var p := Places(rs[..n], k);
      assert forall i :: 0 <= i < |p| ==> rs[..n][p[i]] == rs[p[i]];
      p + (if RowKey(rs[n]) == k then [n] else [])
  }

  lemma {:induction false} SelectHolds(rs: seq<Row>, k: Key)
    ensures forall r :: r in Select(rs, k) <==> r in rs && RowKey(r) == k
  {
    if rs != [] {
      SelectHolds(rs[..|rs| - 1], k);
      assert rs == rs[..|rs| - 1] + [rs[|rs| - 1]];
    }
  }

  lemma LastAgree(a: seq<Row>, b: seq<Row>)
    requires Increasing(a) && Increasing(b) && (forall r :: r in a <==> r in b) && a != [] && b != []
    ensures a[|a| - 1] == b[|b| - 1]
  {
    var m, n := |a| - 1, |b| - 1;
    assert a[m] in b && b[n] in a;
    var i :| 0 <= i <= n && b[i] == a[m];
    var j :| 0 <= j <= m && a[j] == b[n];
    assert a[j].ts <= a[m].ts && b[i].ts <= b[n].ts;
  }

  lemma FrontHolds(a: seq<Row>, r: Row)
    requires Increasing(a) && a != []
    ensures r in a[..|a| - 1] <==> r in a && r != a[|a| - 1]
  {
    if r in a && r != a[|a| - 1] {
      var i :| 0 <= i < |a| && a[i] == r;
      assert a[..|a| - 1][i] == r;
    }
  }

  /** Two time-ordered row sequences with the same rows are the same sequence. */
  lemma {:induction false} OrderedUnique(a: seq<Row>, b: seq<Row>)
    requires Increasing(a) && Increasing(b) && forall r :: r in a <==> r in b
    ensures a == b
    decreases |a|
  {
    assert b != [] ==> b[0] in b;
    if a != [] {
      assert a[0] in b;
      var x, y := a[..|a| - 1], b[..|b| - 1];
      LastAgree(a, b);
      forall r ensures r in x <==> r in y {
        FrontHolds(a, r);
        FrontHolds(b, r);
      }
      OrderedUnique(x, y);
      assert a == x + [a[|a| - 1]] && b == y + [b[|b| - 1]];
    }
  }

  lemma NoTwice(t: seq<Row>, rs: seq<Row>, i: nat, j: nat)
    requires TableDistinct(t) && multiset(rs) == multiset(t) && i < j < |rs|
    ensures rs[i] != rs[j]
  {
    if rs[i] == rs[j] {
      var r := rs[i];
      assert rs == rs[..i] + [r] + rs[i + 1..j] + [r] + rs[j + 1..];
      assert multiset(rs)[r] >= 2;
      AtMostOnce(t, r);
    }
  }

  lemma {:induction false} AtMostOnce(t: seq<Row>, r: Row)
    requires TableDistinct(t)
    ensures multiset(t)[r] <= 1
  {
    if t != [] {
      AtMostOnce(t[1..], r);
      assert t == [t[0]] + t[1..];
      assert t[0] !in t[1..];
    }
  }

  /** The rows the restore sees for a conversation are the committed ones, in commit order. */
  lemma SelectIsRows(w: World, ds: seq<Exchange>, rs: seq<Row>, k: Key)
    requires Books(w) && DistinctIds(w.log) && DeliveredAll(w.log, ds) && QueryResult(rs, Table(ds))
    ensures Select(rs, k) == Rows(w.log, k)
  {
    var a, b := Select(rs, k), Rows(w.log, k);
    OneEach(w.log, ds);
    TableHolds(ds);
    SelectHolds(rs, k);
    RowsHold(w.log, k);
    forall r ensures r in a <==> r in b {
      assert r in rs <==> r in multiset(rs);
      assert r in Table(ds) <==> r in multiset(Table(ds));
    }
    assert Increasing(a) by { SelectIncreasing(w, ds, rs, k); }
    OrderedUnique(a, b);
  }

  lemma OneEach(log: seq<Exchange>, ds: seq<Exchange>)
    requires DistinctIds(log) && DeliveredAll(log, ds)
    ensures OneIdOneExchange(ds)
  {
    forall x, y | x in ds && y in ds && x.messageId == y.messageId ensures x == y {
      var i :| 0 <= i < |log| && log[i] == x;
      var j :| 0 <= j < |log| && log[j] == y;
      assert !(i < j) && !(j < i);
    }
  }

  lemma SelectIncreasing(w: World, ds: seq<Exchange>, rs: seq<Row>, k: Key)
    requires Books(w) && QueryResult(rs, Table(ds)) && TableOf(Table(ds), ds)
    requires forall r :: r in Select(rs, k) <==> r in Rows(w.log, k)
    ensures Increasing(Select(rs, k))
  {
    var a, b := Select(rs, k), Rows(w.log, k);
    var p := Places(rs, k);
    SelectHolds(rs, k);
    forall i, j | 0 <= i < j < |a| ensures a[i].ts < a[j].ts {
      assert rs[p[i]] == a[i] && rs[p[j]] == a[j] && p[i] < p[j];
      assert a[i].ts <= a[j].ts;
      SameTimeSameRow(b, a[i], a[j]);
      NoTwice(Table(ds), rs, p[i], p[j]);
    }
  }

  lemma SameTimeSameRow(b: seq<Row>, r: Row, s: Row)
    requires Increasing(b) && r in b && s in b
    ensures r.ts == s.ts ==> r == s
  {
    var x :| 0 <= x < |b| && b[x] == r;
    var y :| 0 <= y < |b| && b[y] == s;
    assert r.ts == s.ts ==> x == y;
  }

  /** After any interleaving of commits, delivered to the table at least once each, in any order
      and with any duplicates, every result of the history query restores exactly the live
      histories: content, times, roles and session lists, all of them canonical. */
  lemma RestoreIsIdentity(codec: Codec, qs: seq<Request>, ds: seq<Exchange>, rs: seq<Row>)
    requires Typed(codec, qs) && DistinctIds(Run(codec, qs).log)
    requires DeliveredAll(Run(codec, qs).log, ds) && QueryResult(rs, Table(ds))
    ensures var w := Run(codec, qs);
      && Restore(rs).Some? && IdsMatch(Restore(rs).value)
      && (forall k :: Present(Restore(rs).value, k) <==> k in w.chats)
      && (forall k :: k in w.chats ==>
            Restore(rs).value.chats[k.user][k.session] == w.chats[k] && Canonical(w.chats[k]))
  {
    var w := Run(codec, qs);
    RunBooks(codec, qs);
    OneEach(w.log, ds);
    TableHolds(ds);
    forall i | 0 <= i < |rs| ensures ValidRow(rs[i]) {
      assert rs[i] in multiset(rs);
      assert rs[i] in Table(ds);
      var x :| x in ds && IsRowOf(rs[i], x);
      assert x in w.log;
    }
    RestoreSelects(rs);
    forall k
      ensures Present(Restore(rs).value, k) <==> k in w.chats
      ensures k in w.chats ==> Restore(rs).value.chats[k.user][k.session] == w.chats[k] && Canonical(w.chats[k])
    {
      SelectIsRows(w, ds, rs, k);
      assert ChatAt(w, k) == ChatOf(Rows(w.log, k));
      if Rows(w.log, k) != [] {
        RowsHold(w.log, k);
        assert Rows(w.log, k)[0] in Rows(w.log, k);
        var x :| x in w.log && KeyOf(x) == k && IsRowOf(Rows(w.log, k)[0], x);
      }
    }
  }
}
