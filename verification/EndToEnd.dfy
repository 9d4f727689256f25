/** From admission to the table: the queue client, the broker and the consumer together. */
module EndToEnd {
  import opened Json
  import opened Optional
  import opened MqClient
  import opened MqSystem
  import opened MqTokens
  import opened MqCustody
  import opened MqCopies
  import opened MqNoLoss
  import ChatMessage
  import H = ChatHistory
  import W = MqWindow

  type Exchange = ChatMessage.Exchange
  type Row = ChatMessage.Row

  // ---- The consumer at work ----------------------------------------------------------------------------------------------

  /** A step of the queue system; `db` says how the database behaves if the step is the consumer's
      answer. */
  datatype Move = Move(step: Step, db: ChatMessage.Database)

  predicate Answering(s: System, m: Move) {
    m.step.WorkerAnswers? && m.step.w < |s.c.tasks.workers| && s.c.tasks.workers[m.step.w].open
  }

  /** The first answer to a delivery is what the consumer made of its body; later ones are ignored. */
  predicate Honours(codec: Codec, s: System, t: seq<Row>, m: Move) {
    Answering(s, m) ==> m.step.result == ChatMessage.Executed(codec, t, s.c.tasks.workers[m.step.w].body, m.db).1
  }

  function TableAfter(codec: Codec, s: System, t: seq<Row>, m: Move): seq<Row> {
    if Answering(s, m) then ChatMessage.Executed(codec, t, s.c.tasks.workers[m.step.w].body, m.db).0 else t
  }

  /** `r, u` is a run of `s, t` over `moves`. */
  ghost predicate Plays(codec: Codec, s: System, t: seq<Row>, moves: seq<Move>, r: System, u: seq<Row>)
    decreases |moves|
  {
    if moves == [] then r == s && u == t
    else
      && Enabled(s, moves[0].step) && Honours(codec, s, t, moves[0])
      && Plays(codec, Apply(codec, s, moves[0].step), TableAfter(codec, s, t, moves[0]), moves[1..], r, u)
  }

  function Steps(moves: seq<Move>): (r: seq<Step>)
    ensures |r| == |moves| && forall i :: 0 <= i < |r| ==> r[i] == moves[i].step
  {
    if moves == [] then [] else [moves[0].step] + Steps(moves[1..])
  }

  lemma {:induction false} PlaysRuns(codec: Codec, s: System, t: seq<Row>, moves: seq<Move>, r: System, u: seq<Row>)
    requires Plays(codec, s, t, moves, r, u)
    ensures Runs(codec, s, Steps(moves), r)
    decreases |moves|
  {
    hide Apply, Enabled, Honours, TableAfter;
    if moves != [] {
      PlaysRuns(codec, Apply(codec, s, moves[0].step), TableAfter(codec, s, t, moves[0]), moves[1..], r, u);
      assert Steps(moves)[1..] == Steps(moves[1..]);
    }
  }

  // ---- What the consumer acknowledged is in the table ------------------------------------------------------------------------

  /** A row under each of the exchange's two keys. */
  ghost predicate Keyed(t: seq<Row>, x: Exchange) {
    ChatMessage.HasKey(t, x.messageId + "/u") && ChatMessage.HasKey(t, x.messageId + "/a")
  }

  lemma KeyStays(t: seq<Row>, u: seq<Row>, key: string)
    requires t <= u && ChatMessage.HasKey(t, key)
    ensures ChatMessage.HasKey(u, key)
  {
    var i :| 0 <= i < |t| && t[i].messageId == Some(key);
    assert u[i] == t[i];
  }

  lemma PersistStores(t: seq<Row>, x: Exchange)
    ensures t <= ChatMessage.Persist(t, x) && Keyed(ChatMessage.Persist(t, x), x)
  {
    var mid := ChatMessage.InsertRow(t, ChatMessage.UserRow(x));
    ChatMessage.Inserted(t, ChatMessage.UserRow(x));
    ChatMessage.Inserted(mid, ChatMessage.AnswerRow(x));
    KeyStays(mid, ChatMessage.Persist(t, x), x.messageId + "/u");
  }

  lemma TableGrows(codec: Codec, s: System, t: seq<Row>, m: Move)
    ensures t <= TableAfter(codec, s, t, m)
  {
    if Answering(s, m) {
      var x := ChatMessage.Parse(codec, s.c.tasks.workers[m.step.w].body);
      if x.Some? { PersistStores(t, x.value); }
    }
  }

  /** Every message whose handler said Ack parses to an exchange that is in the table. */
  ghost predicate Persisted(codec: Codec, s: System, t: seq<Row>) {
    forall id :: id in s.handled ==>
      id < |s.records| && ChatMessage.Parse(codec, s.records[id].body).Some? &&
      Keyed(t, ChatMessage.Parse(codec, s.records[id].body).value)
  }

  /** Messages keep their number, queue and body. */
  ghost predicate SameTexts(s: System, r: System) {
    |s.records| <= |r.records| && forall i :: 0 <= i < |s.records| ==>
      r.records[i].queue == s.records[i].queue && r.records[i].body == s.records[i].body
  }

  lemma TextsStay(codec: Codec, s: System, st: Step)
    requires Enabled(s, st)
    ensures SameTexts(s, Apply(codec, s, st))
  {
    match st
    case TakePublish(g, routable, refused) => hide Requeue, KnownTag;
    case TakeSettle(g) => hide KnownTag;
    case _ =>
  }

  lemma HandledOnlyBy(codec: Codec, s: System, m: Move)
    requires Enabled(s, m.step) && !Answering(s, m)
    ensures Apply(codec, s, m.step).handled == s.handled
  {
    hide Requeue, KnownTag, RunClosure, PublisherTurn, FireTimer, FireReconnect, DrainPending, OnNotice;
  }

  lemma MoveKeepsPersisted(codec: Codec, s: System, t: seq<Row>, m: Move)
    requires Good(codec, s) && Persisted(codec, s, t) && Enabled(s, m.step) && Honours(codec, s, t, m)
    ensures Persisted(codec, Apply(codec, s, m.step), TableAfter(codec, s, t, m))
  {
    TextsStay(codec, s, m.step);
    TableGrows(codec, s, t, m);
    if Answering(s, m) {
      WorkerText(codec, s, m.step.w);
      AnswerPersists(codec, s, t, m);
    } else {
      HandledOnlyBy(codec, s, m);
      hide *;
      PersistedStays(codec, s, t, Apply(codec, s, m.step), TableAfter(codec, s, t, m));
    }
  }

  lemma WorkerText(codec: Codec, s: System, w: nat)
    requires Good(codec, s) && w < |s.c.tasks.workers|
    ensures WorkerOk(s, s.c.tasks.workers[w])
  {
    assert TasksOk(codec, s);
    hide Good;
  }

  lemma PersistedStays(codec: Codec, s: System, t: seq<Row>, r: System, u: seq<Row>)
    requires Persisted(codec, s, t) && SameTexts(s, r) && r.handled == s.handled && t <= u
    ensures Persisted(codec, r, u)
  {
    forall id | id in r.handled
      ensures id < |r.records| && ChatMessage.Parse(codec, r.records[id].body).Some?
      ensures Keyed(u, ChatMessage.Parse(codec, r.records[id].body).value)
    {
      var x := ChatMessage.Parse(codec, s.records[id].body).value;
      KeyStays(t, u, x.messageId + "/u");
      KeyStays(t, u, x.messageId + "/a");
    }
  }

  lemma AnswerPersists(codec: Codec, s: System, t: seq<Row>, m: Move)
    requires Persisted(codec, s, t) && Enabled(s, m.step) && Honours(codec, s, t, m) && Answering(s, m)
    requires WorkerOk(s, s.c.tasks.workers[m.step.w]) && t <= TableAfter(codec, s, t, m)
    ensures Persisted(codec, Apply(codec, s, m.step), TableAfter(codec, s, t, m))
  {
    var r, u, k := Apply(codec, s, m.step), TableAfter(codec, s, t, m), s.c.tasks.workers[m.step.w];
    PersistedStays(codec, s, t, s, u);
    assert r.records == s.records && r.handled == Answered(s, m.step.w, m.step.result);
    if m.step.result == Ack && Delivered(s, k.generation, k.tag) {
      var x := ChatMessage.Parse(codec, k.body).value;
      PersistStores(t, x);
      assert Keyed(u, x) && s.records[IdOf(s, k.generation, k.tag)].body == k.body;
    }
    hide Keyed, WorkerOk, Apply, TableAfter;
  }

  lemma {:induction false} PersistedAlways(codec: Codec, s: System, t: seq<Row>, moves: seq<Move>, r: System, u: seq<Row>)
    requires Inv(codec, s) && Persisted(codec, s, t) && Plays(codec, s, t, moves, r, u)
    ensures Inv(codec, r) && Persisted(codec, r, u)
    decreases |moves|
  {
    if moves != [] {
      var m := moves[0];
      assert Good(codec, s);
      hide Inv, Good, Persisted, Apply, Enabled, Honours, TableAfter;
      MoveKeepsPersisted(codec, s, t, m);
      InvStep(codec, s, m.step);
      PersistedAlways(codec, Apply(codec, s, m.step), TableAfter(codec, s, t, m), moves[1..], r, u);
    }
  }

  // ---- Whose rows they are ------------------------------------------------------------------------------------------------------

  /** A text that parses is one of the exchanges of `log`. */
  ghost predicate Lists(codec: Codec, log: seq<Exchange>, body: string) {
    ChatMessage.Parse(codec, body).Some? ==> ChatMessage.Parse(codec, body).value in log
  }

  ghost predicate TextsIn(codec: Codec, s: System, log: seq<Exchange>) {
    forall i :: 0 <= i < |s.records| ==> Lists(codec, log, s.records[i].body)
  }

  /** Every row that has a key is a row of an exchange of `log`. */
  ghost predicate RowsIn(t: seq<Row>, log: seq<Exchange>) {
    forall q :: q in t && q.messageId.Some? ==> exists x :: x in log && H.IsRowOf(q, x)
  }

  /** `log` has one exchange for each id, and both the rows the table started with and the messages
      the broker ever accepted are exchanges of `log`. */
  ghost predicate OneSource(codec: Codec, t: seq<Row>, r: System, log: seq<Exchange>) {
    RowsIn(t, log) && TextsIn(codec, r, log) && H.OneIdOneExchange(log)
  }

  /** The two rows of the exchange itself: ids, user, session, role, text and time. */
  ghost predicate Held(t: seq<Row>, x: Exchange) { ChatMessage.UserRow(x) in t && ChatMessage.AnswerRow(x) in t }

  lemma KeyedIsHeld(t: seq<Row>, x: Exchange, log: seq<Exchange>)
    requires Keyed(t, x) && RowsIn(t, log) && H.OneIdOneExchange(log) && x in log
    ensures Held(t, x)
  {
    RowOfKey(t, x, ChatMessage.UserRow(x), log);
    RowOfKey(t, x, ChatMessage.AnswerRow(x), log);
  }

  lemma RowOfKey(t: seq<Row>, x: Exchange, q: Row, log: seq<Exchange>)
    requires H.IsRowOf(q, x) && ChatMessage.HasKey(t, q.messageId.value) && RowsIn(t, log) && H.OneIdOneExchange(log) && x in log
    ensures q in t
  {
    var i :| 0 <= i < |t| && t[i].messageId == Some(q.messageId.value);
    assert t[i] in t;
    var y :| y in log && H.IsRowOf(t[i], y);
    H.RowIds(x, y, q, t[i]);
  }

  lemma PersistRowsIn(t: seq<Row>, x: Exchange, log: seq<Exchange>)
    requires RowsIn(t, log) && x in log
    ensures RowsIn(ChatMessage.Persist(t, x), log)
  {
    forall q | q in ChatMessage.Persist(t, x) && q.messageId.Some? ensures exists y :: y in log && H.IsRowOf(q, y) {
      if q !in t { assert H.IsRowOf(q, x); }
    }
  }

  lemma MoveRowsIn(codec: Codec, s: System, t: seq<Row>, m: Move, log: seq<Exchange>)
    requires Good(codec, s) && RowsIn(t, log) && TextsIn(codec, s, log)
    ensures RowsIn(TableAfter(codec, s, t, m), log)
  {
    if Answering(s, m) {
      var k := s.c.tasks.workers[m.step.w];
      WorkerText(codec, s, m.step.w);
      hide Good, RowsIn;
      assert Lists(codec, log, s.records[IdOf(s, k.generation, k.tag)].body);
      var x := ChatMessage.Parse(codec, k.body);
      if x.Some? { PersistRowsIn(t, x.value, log); }
    }
  }

  lemma {:induction false} RunTexts(codec: Codec, s: System, steps: seq<Step>, r: System)
    requires Runs(codec, s, steps, r)
    ensures SameTexts(s, r)
    decreases |steps|
  {
    hide Apply, Enabled;
    if steps != [] {
      TextsStay(codec, s, steps[0]);
      RunTexts(codec, Apply(codec, s, steps[0]), steps[1..], r);
    }
  }

  lemma TextsInBefore(codec: Codec, s: System, r: System, log: seq<Exchange>)
    requires SameTexts(s, r) && TextsIn(codec, r, log)
    ensures TextsIn(codec, s, log)
  {
    forall i | 0 <= i < |s.records| ensures Lists(codec, log, s.records[i].body) {
      assert Lists(codec, log, r.records[i].body);
    }
  }

  /** No row enters the table but those of exchanges the broker accepted. */
  lemma {:induction false} RowsInAlways(codec: Codec, s: System, t: seq<Row>, moves: seq<Move>, r: System, u: seq<Row>, log: seq<Exchange>)
    requires Inv(codec, s) && Plays(codec, s, t, moves, r, u) && RowsIn(t, log) && TextsIn(codec, r, log)
    ensures RowsIn(u, log)
    decreases |moves|
  {
    if moves != [] {
      var m := moves[0];
      assert Good(codec, s);
      PlaysRuns(codec, s, t, moves, r, u);
      hide Inv, Good, RowsIn, TextsIn, SameTexts, Apply, Enabled, Honours, TableAfter;
      RunTexts(codec, s, Steps(moves), r);
      TextsInBefore(codec, s, r, log);
      MoveRowsIn(codec, s, t, m, log);
      InvStep(codec, s, m.step);
      RowsInAlways(codec, Apply(codec, s, m.step), TableAfter(codec, s, t, m), moves[1..], r, u, log);
    }
  }

  /** What a handler acknowledged is in the table: the rows of that very exchange. */
  lemma AckedHeld(codec: Codec, s: System, t: seq<Row>, moves: seq<Move>, r: System, u: seq<Row>, log: seq<Exchange>, id: nat)
    requires Init(s) && Plays(codec, s, t, moves, r, u) && OneSource(codec, t, r, log) && id in r.handled
    ensures id < |r.records| && ChatMessage.Parse(codec, r.records[id].body).Some?
    ensures Held(u, ChatMessage.Parse(codec, r.records[id].body).value)
  {
    InvInit(codec, s);
    assert Persisted(codec, s, t);
    hide Inv, Init, Plays, RowsIn, H.OneIdOneExchange, Held, Keyed;
    PersistedAlways(codec, s, t, moves, r, u);
    RowsInAlways(codec, s, t, moves, r, u, log);
    assert Lists(codec, log, r.records[id].body);
    KeyedIsHeld(u, ChatMessage.Parse(codec, r.records[id].body).value, log);
  }

  // ---- A safe message is in the broker or in the table ---------------------------------------------------------------------------

  /** A copy the client makes of a delivery is the same exchange. */
  lemma CopyParses(codec: Codec, name: string, original: string, queue: string, body: string)
    requires Lawful(codec) && IsCopy(codec, name, original, queue, body)
    ensures ChatMessage.Parse(codec, body) == ChatMessage.Parse(codec, original)
  {
    ChatMessage.RetryStep(codec, name, original);
    assert Replacement(codec, name, Reject, original).body == original;
    hide ChatMessage.Parse, ChatMessage.AttemptOf;
  }

  /** The broker still has a message with this exchange. */
  ghost predicate Waiting(codec: Codec, s: System, x: Exchange) {
    exists j :: 0 <= j < |s.records| && s.records[j].place != Removed && ChatMessage.Parse(codec, s.records[j].body) == Some(x)
  }

  /** The broker owns a message with this exchange, or the table has rows under its keys. */
  ghost predicate Kept(codec: Codec, s: System, t: seq<Row>, x: Exchange) {
    Keyed(t, x) || Waiting(codec, s, x)
  }

  lemma {:induction false} SafeIsKept(codec: Codec, s: System, t: seq<Row>, id: nat, x: Exchange)
    requires Lawful(codec) && id < |s.records| && Safe(codec, s, id) && Persisted(codec, s, t)
    requires ChatMessage.Parse(codec, s.records[id].body) == Some(x)
    ensures Kept(codec, s, t, x)
    decreases |s.records| - id
  {
    if s.records[id].place == Removed && id !in s.handled {
      var j :| id < j < |s.records| && Copies(codec, s, id, j) && Safe(codec, s, j);
      CopyParses(codec, s.c.queueName, s.records[id].body, s.records[j].queue, s.records[j].body);
      SafeIsKept(codec, s, t, j, x);
    }
  }

  /** Every exchange the broker ever accepted is still in some queue of the broker, in whatever retry
      copy, or in the table: in every run, whatever connections, publishes and database calls fail.
      Where no two exchanges share an id, the rows in the table are its own. */
  lemma AcceptedKept(codec: Codec, s: System, t: seq<Row>, moves: seq<Move>, r: System, u: seq<Row>, id: nat, x: Exchange, log: seq<Exchange>)
    requires Lawful(codec) && Init(s) && Plays(codec, s, t, moves, r, u)
    requires id < |r.records| && ChatMessage.Parse(codec, r.records[id].body) == Some(x)
    ensures Kept(codec, r, u, x)
    ensures OneSource(codec, t, r, log) ==> Held(u, x) || Waiting(codec, r, x)
  {
    InvInit(codec, s);
    assert Persisted(codec, s, t);
    hide Inv, Init, Plays, RowsIn, H.OneIdOneExchange, Held, Keyed, Waiting, Persisted, Safe;
    PersistedAlways(codec, s, t, moves, r, u);
    PlaysRuns(codec, s, t, moves, r, u);
    NoLoss(codec, s, Steps(moves), r, id);
    SafeIsKept(codec, r, u, id, x);
    if OneSource(codec, t, r, log) && Keyed(u, x) {
      RowsInAlways(codec, s, t, moves, r, u, log);
      assert Lists(codec, log, r.records[id].body);
      KeyedIsHeld(u, x, log);
    }
  }

  // ---- An admitted publication is with the client or with the broker ---------------------------------------------------------------

  ghost predicate Accepted(s: System, p: Publication) {
    exists id :: 0 <= id < |s.records| && s.records[id].queue == p.queue && s.records[id].body == p.body
  }

  lemma AcceptedStays(s: System, r: System, p: Publication)
    requires Accepted(s, p) && SameTexts(s, r)
    ensures Accepted(r, p)
  {
    var id :| 0 <= id < |s.records| && s.records[id].queue == p.queue && s.records[id].body == p.body;
    assert r.records[id].queue == p.queue && r.records[id].body == p.body;
  }

  lemma {:induction false} RunAccepted(codec: Codec, s: System, steps: seq<Step>, r: System, p: Publication)
    requires Accepted(s, p) && Runs(codec, s, steps, r)
    ensures Accepted(r, p)
    decreases |steps|
  {
    hide Apply, Enabled, Accepted, SameTexts;
    if steps != [] {
      TextsStay(codec, s, steps[0]);
      AcceptedStays(s, Apply(codec, s, steps[0]), p);
      RunAccepted(codec, Apply(codec, s, steps[0]), steps[1..], r, p);
    }
  }

  lemma {:induction false} KeptOrCovered(es: seq<Entry>, tag: nat, multiple: bool, p: Publication)
    requires p in Items(es)
    ensures p in Items(W.Kept(es, tag, multiple)) ||
      exists i :: 0 <= i < |es| && Covers(tag, multiple, es[i].tag) && es[i].item == p
  {
    var rest := W.Kept(es[1..], tag, multiple);
    var head := if Covers(tag, multiple, es[0].tag) then [] else [es[0]];
    assert W.Kept(es, tag, multiple) == head + rest;
    W.ItemsConcat(head, rest);
    assert Items(head) == if head == [] then [] else [es[0].item] by { ItemsOfOne(es[0]); }
    if es[0].item != p {
      assert p in Items(es[1..]);
      hide Items, W.Kept, Covers;
      KeptOrCovered(es[1..], tag, multiple, p);
      if i :| 0 <= i < |es[1..]| && Covers(tag, multiple, es[1..][i].tag) && es[1..][i].item == p {
        assert es[i + 1].item == p && Covers(tag, multiple, es[i + 1].tag);
      }
    }
  }

  lemma ItemsOfOne(e: Entry)
    ensures Items([e]) == [e.item] && Items([]) == []
  {
    assert [e][1..] == [];
  }

  /** One step: what was to be published still is, or the broker has it. */
  lemma StepHolds(codec: Codec, s: System, st: Step, p: Publication)
    requires Good(codec, s) && W.Window(s.c) && Enabled(s, st) && s.c.link.alive && !st.StopClient?
    requires p in W.Line(s.c) + W.Admits(s, st)
    ensures p in W.Line(Apply(codec, s, st).c) || Accepted(s, p)
  {
    W.LineStep(codec, s, st);
    hide Apply, Good, W.Window, Enabled;
    if W.Confirms(s, st) && p in Items(s.c.out.inflight) { ConfirmHolds(codec, s, st, p); }
  }

  lemma ConfirmHolds(codec: Codec, s: System, st: Step, p: Publication)
    requires Good(codec, s) && Enabled(s, st) && W.Confirms(s, st) && p in Items(s.c.out.inflight)
    ensures p in W.LineAfter(s, st) || Accepted(s, p)
  {
    var k := s.conns[s.c.link.generation];
    var n := k.notices[k.read];
    KeptOrCovered(s.c.out.inflight, n.tag, n.multiple, p);
    hide Good, Covers;
    if i :| 0 <= i < |s.c.out.inflight| && Covers(n.tag, n.multiple, s.c.out.inflight[i].tag) && s.c.out.inflight[i].item == p {
      StoredNow(codec, s, i);
    }
  }

  lemma {:induction false} LineHolds(codec: Codec, s: System, steps: seq<Step>, r: System, p: Publication)
    requires Inv(codec, s) && W.Window(s.c) && s.c.link.alive && Runs(codec, s, steps, r)
    requires forall i :: 0 <= i < |steps| ==> !steps[i].StopClient?
    requires p in W.Line(s.c) + W.Admitted(codec, s, steps, r)
    ensures p in W.Line(r.c) || Accepted(r, p)
    decreases |steps|
  {
    if steps != [] {
      var st := steps[0];
      var s1 := Apply(codec, s, st);
      assert Good(codec, s);
      hide Inv, Good, Apply, Enabled, Accepted, W.Line, W.Admits, W.Window;
      InvStep(codec, s, st);
      W.LineStep(codec, s, st);
      W.AliveStep(codec, s, st);
      if p in W.Line(s.c) + W.Admits(s, st) {
        StepHolds(codec, s, st, p);
        if p in W.Line(s1.c) {
          LineHolds(codec, s1, steps[1..], r, p);
        } else {
          TextsStay(codec, s, st);
          AcceptedStays(s, s1, p);
          RunAccepted(codec, s1, steps[1..], r, p);
        }
      } else {
        LineHolds(codec, s1, steps[1..], r, p);
      }
    }
  }

  /** An exchange admitted by the client, while it stays alive, is still in its publication sequence,
      or in some queue of the broker, or in the table, with its own rows where no two exchanges share
      an id. */
  lemma NothingLost(codec: Codec, s: System, t: seq<Row>, moves: seq<Move>, r: System, u: seq<Row>, p: Publication, x: Exchange, log: seq<Exchange>)
    requires Lawful(codec) && Init(s) && Plays(codec, s, t, moves, r, u)
    requires forall i :: 0 <= i < |moves| ==> !moves[i].step.StopClient?
    requires Runs(codec, s, Steps(moves), r) && p in W.Admitted(codec, s, Steps(moves), r)
    requires ChatMessage.Parse(codec, p.body) == Some(x)
    ensures p in W.Line(r.c) || Kept(codec, r, u, x)
    ensures OneSource(codec, t, r, log) ==> p in W.Line(r.c) || Held(u, x) || Waiting(codec, r, x)
  {
    InvInit(codec, s);
    W.WindowAlways(codec, s, [], s);
    assert s.c.link.alive;
    hide *;
    LineHolds(codec, s, Steps(moves), r, p);
    if p !in W.Line(r.c) {
      var id := AcceptedAs(r, p);
      AcceptedKept(codec, s, t, moves, r, u, id, x, log);
    }
  }

  lemma AcceptedAs(s: System, p: Publication) returns (id: nat)
    requires Accepted(s, p)
    ensures id < |s.records| && s.records[id].body == p.body
  {
    id :| id < |s.records| && s.records[id].queue == p.queue && s.records[id].body == p.body;
  }
}
