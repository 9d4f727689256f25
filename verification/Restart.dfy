/** From published exchanges through the queue and the table to the histories of the next process. */
module Restart {
  import opened Json
  import opened Optional
  import opened MqClient
  import opened MqSystem
  import opened MqCustody
  import opened MqNoLoss
  import opened EndToEnd
  import ChatMessage
  import H = ChatHistory
  import W = MqWindow

  // ---- Every text in the system is a published exchange --------------------------------------------------

  ghost predicate ListsAll(codec: Codec, log: seq<Exchange>, ps: seq<Publication>) {
    forall p :: p in ps ==> Lists(codec, log, p.body)
  }

  /** Whatever was given to a publish call. */
  ghost predicate SentIn(codec: Codec, log: seq<Exchange>, c: Client) {
    forall g, i :: 0 <= i < |WireOf(c, g).sent| ==> Lists(codec, log, WireOf(c, g).sent[i].body)
  }

  /** The publication sequence, the wires and the queues hold only exchanges of `log`, and texts that
      are no exchange at all. */
  ghost predicate Sourced(codec: Codec, log: seq<Exchange>, s: System) {
    ListsAll(codec, log, W.Line(s.c)) && SentIn(codec, log, s.c) && TextsIn(codec, s, log)
  }

  lemma FrontSent(codec: Codec, log: seq<Exchange>, c: Client, p: Publication)
    requires SentIn(codec, log, c) && Lists(codec, log, p.body)
    ensures SentIn(codec, log, WriteSent(c, p))
  {
    var d := WriteSent(c, p);
    forall g, i | 0 <= i < |WireOf(d, g).sent| ensures Lists(codec, log, WireOf(d, g).sent[i].body) {
      if g == c.link.generation && i == |WireOf(c, g).sent| {
      } else {
        assert WireOf(d, g).sent[i] == WireOf(c, g).sent[i];
      }
    }
  }

  lemma {:induction false} DrainSent(codec: Codec, log: seq<Exchange>, c: Client, room: nat, torn: bool)
    requires SentIn(codec, log, c) && ListsAll(codec, log, c.out.pending)
    ensures SentIn(codec, log, DrainLoop(c, room, torn))
    decreases |c.out.pending|
  {
    hide Lists;
    if c.out.pending != [] && |c.out.inflight| < MAX_INFLIGHT {
      var p := c.out.pending[0];
      FrontSent(codec, log, c, p);
      hide WriteSent;
      if room == 0 {
        SameSent(codec, log, if torn then WriteSent(c, p) else c, DrainLoop(c, room, torn));
      } else {
        SameSent(codec, log, WriteSent(c, p), PublishFront(c));
        DrainSent(codec, log, PublishFront(c), room - 1, torn);
      }
    }
  }

  lemma SameSent(codec: Codec, log: seq<Exchange>, c: Client, d: Client)
    requires SentIn(codec, log, c) && forall g :: WireOf(d, g).sent == WireOf(c, g).sent || WireOf(d, g).sent == []
    ensures SentIn(codec, log, d)
  {
    forall g, i | 0 <= i < |WireOf(d, g).sent| ensures Lists(codec, log, WireOf(d, g).sent[i].body) {
      assert WireOf(d, g).sent[i] == WireOf(c, g).sent[i];
    }
  }

  lemma {:induction false} ConfirmSent(c: Client, i: nat, tag: nat, multiple: bool)
    requires i <= |c.out.inflight|
    ensures forall g :: WireOf(ConfirmLoop(c, i, tag, multiple), g).sent == WireOf(c, g).sent
    decreases |c.out.inflight| - i
  {
    if i < |c.out.inflight| {
      if Covers(tag, multiple, c.out.inflight[i].tag) {
        ConfirmSent(ConfirmAt(c, i), i, tag, multiple);
      } else {
        ConfirmSent(c, i + 1, tag, multiple);
      }
    }
  }

  lemma NoticeSent(codec: Codec, log: seq<Exchange>, c: Client, n: Notice, room: nat, torn: bool)
    requires SentIn(codec, log, c) && ListsAll(codec, log, c.out.pending)
    ensures SentIn(codec, log, OnNotice(c, n, room, torn))
  {
    if n.Confirmed? && !c.link.recovering && !c.link.shuttingDown {
      var d := ConfirmLoop(c, 0, n.tag, n.multiple);
      ConfirmSent(c, 0, n.tag, n.multiple);
      W.ConfirmEffect(c, 0, n.tag, n.multiple);
      hide ConfirmLoop, Lists;
      SameSent(codec, log, c, d);
      DrainSent(codec, log, d, room, torn);
    } else {
      SameSent(codec, log, c, OnNotice(c, n, room, torn));
    }
  }

  lemma RunSent(codec: Codec, log: seq<Exchange>, c: Client, room: nat, torn: bool)
    requires SentIn(codec, log, c) && ListsAll(codec, log, W.Line(c)) && c.tasks.loop != []
    ensures SentIn(codec, log, RunClosure(c, codec, room, torn))
  {
    var d := RunClosure(c, codec, room, torn);
    var c1 := c.(tasks := c.tasks.(loop := c.tasks.loop[1..]));
    hide Lists, Replacement;
    if c.link.alive && c.tasks.loop[0].Enqueue? {
      var item := c.tasks.loop[0].item;
      var c2 := c1.(out := c1.out.(pending := c1.out.pending + [item]));
      assert item in W.Queued(c.tasks.loop);
      assert forall p :: p in c2.out.pending ==> p in W.Line(c);
      SameSent(codec, log, c, c2);
      hide DrainLoop;
      DrainSent(codec, log, c2, room, torn);
    } else {
      SameSent(codec, log, c, d);
    }
  }

  lemma PendingListed(codec: Codec, log: seq<Exchange>, c: Client)
    requires ListsAll(codec, log, W.Line(c))
    ensures ListsAll(codec, log, c.out.pending)
  {
    hide Lists, W.Queued, Items;
    assert forall p :: p in c.out.pending ==> p in W.Line(c);
  }

  lemma StepSent(codec: Codec, log: seq<Exchange>, s: System, st: Step)
    requires Sourced(codec, log, s) && Enabled(s, st)
    ensures SentIn(codec, log, Apply(codec, s, st).c)
  {
    PendingListed(codec, log, s.c);
    match st
    case RunLoop(room, torn) => RunSent(codec, log, s.c, room, torn);
    case SelectSucceeds(room, torn) =>
      var c1 := s.c.(link := s.c.link.(producerReady := true));
      SameSent(codec, log, s.c, c1);
      hide DrainLoop;
      DrainSent(codec, log, c1, room, torn);
    case Writable(room, torn) =>
      hide DrainLoop;
      DrainSent(codec, log, s.c, room, torn);
    case ReadNotice(room, torn) =>
      var k := s.conns[s.c.link.generation];
      hide OnNotice;
      NoticeSent(codec, log, s.c, k.notices[k.read], room, torn);
    case _ => OtherSent(codec, log, s, st);
  }

  lemma OtherSent(codec: Codec, log: seq<Exchange>, s: System, st: Step)
    requires SentIn(codec, log, s.c) && Enabled(s, st)
    requires !st.RunLoop? && !st.SelectSucceeds? && !st.Writable? && !st.ReadNotice?
    ensures SentIn(codec, log, Apply(codec, s, st).c)
  {
    hide Lists, KnownTag, Requeue;
    SameSent(codec, log, s.c, Apply(codec, s, st).c);
  }

  /** What a step admits is a new publication or the copy of a delivery. */
  lemma AdmitsListed(codec: Codec, log: seq<Exchange>, s: System, st: Step)
    requires Lawful(codec) && Good(codec, s) && TextsIn(codec, s, log) && Enabled(s, st)
    requires forall p :: p in W.Admits(s, st) && p.completion.NoCompletion? ==> Lists(codec, log, p.body)
    ensures ListsAll(codec, log, W.Admits(s, st))
  {
    forall p | p in W.Admits(s, st) ensures Lists(codec, log, p.body) {
      if p.completion.Settles? {
        assert TasksOk(codec, s);
        hide Good;
        assert PublisherOk(codec, s, s.c.tasks.publishers[st.p]) && PubOk(codec, s, p);
        var id := IdOf(s, p.completion.generation, p.completion.tag);
        hide TasksOk, IsCopy;
        assert Lists(codec, log, s.records[id].body);
        CopyParses(codec, s.c.queueName, s.records[id].body, p.queue, p.body);
      }
    }
  }

  /** A message the broker takes over has the text of the publish it routes. */
  lemma StepTexts(codec: Codec, log: seq<Exchange>, s: System, st: Step)
    requires TextsIn(codec, s, log) && SentIn(codec, log, s.c) && Enabled(s, st)
    requires st.Foreign? ==> Lists(codec, log, st.body)
    ensures TextsIn(codec, Apply(codec, s, st), log)
  {
    var r := Apply(codec, s, st);
    TextsStay(codec, s, st);
    NewTexts(codec, s, st);
    hide Apply, Enabled, Lists;
    forall i | 0 <= i < |r.records| ensures Lists(codec, log, r.records[i].body) {
      if i < |s.records| { assert Lists(codec, log, s.records[i].body); }
    }
  }

  /** A new message is a foreign one or the publish that was just routed. */
  lemma NewTexts(codec: Codec, s: System, st: Step)
    requires Enabled(s, st)
    ensures var r := Apply(codec, s, st);
      match st
      case Foreign(_, body) => forall i :: |s.records| <= i < |r.records| ==> r.records[i].body == body
      case TakePublish(g, _, _) =>
        forall i :: |s.records| <= i < |r.records| ==> r.records[i].body == WireOf(s.c, g).sent[|s.conns[g].outcomes|].body
      case _ => |r.records| == |s.records|
  {
    match st
    case TakePublish(g, _, _) =>
    case Foreign(_, _) =>
    case _ => hide RunClosure, PublisherTurn, FireTimer, FireReconnect, DrainPending, OnNotice, Stop, WorkerResult, OnConnected;
  }

  lemma SourcedStep(codec: Codec, log: seq<Exchange>, s: System, st: Step)
    requires Lawful(codec) && Good(codec, s) && W.Window(s.c) && Sourced(codec, log, s) && Enabled(s, st)
    requires s.c.link.alive && !st.StopClient?
    requires st.Foreign? ==> Lists(codec, log, st.body)
    requires forall p :: p in W.Admits(s, st) && p.completion.NoCompletion? ==> Lists(codec, log, p.body)
    ensures Sourced(codec, log, Apply(codec, s, st))
  {
    var r := Apply(codec, s, st);
    StepSent(codec, log, s, st);
    StepTexts(codec, log, s, st);
    AdmitsListed(codec, log, s, st);
    W.StepKeepsOrder(codec, s, st);
    assert ListsAll(codec, log, W.Line(s.c));
    hide *;
    StillListed(codec, log, W.Line(s.c), W.Admits(s, st), W.Line(r.c), W.Confirmed(s, st));
    WholeSourced(codec, log, r);
  }

  lemma WholeSourced(codec: Codec, log: seq<Exchange>, s: System)
    requires ListsAll(codec, log, W.Line(s.c)) && SentIn(codec, log, s.c) && TextsIn(codec, s, log)
    ensures Sourced(codec, log, s)
  {
    hide W.Line, ListsAll, SentIn, TextsIn;
  }

  lemma StillListed(codec: Codec, log: seq<Exchange>, a: seq<Publication>, b: seq<Publication>, c: seq<Publication>, d: seq<Publication>)
    requires ListsAll(codec, log, a) && ListsAll(codec, log, b) && W.Together(a + b, c, d)
    ensures ListsAll(codec, log, c)
  {
    hide Lists;
    forall p | p in c ensures Lists(codec, log, p.body) {
      assert p in multiset(c) && p in multiset(a + b) && p in a + b;
    }
  }

  /** Nothing published from elsewhere and nothing the client is asked to publish is an exchange
      outside `log`; retry copies are not restricted. */
  ghost predicate PublishesOnly(codec: Codec, log: seq<Exchange>, s: System, steps: seq<Step>, r: System)
    requires Runs(codec, s, steps, r)
  {
    && (forall i :: 0 <= i < |steps| && steps[i].Foreign? ==> Lists(codec, log, steps[i].body))
    && (forall p :: p in W.Admitted(codec, s, steps, r) && p.completion.NoCompletion? ==> Lists(codec, log, p.body))
  }

  lemma PublishesSplit(codec: Codec, log: seq<Exchange>, s: System, steps: seq<Step>, r: System)
    requires Runs(codec, s, steps, r) && steps != [] && PublishesOnly(codec, log, s, steps, r)
    ensures PublishesOnly(codec, log, Apply(codec, s, steps[0]), steps[1..], r)
    ensures steps[0].Foreign? ==> Lists(codec, log, steps[0].body)
    ensures forall p :: p in W.Admits(s, steps[0]) && p.completion.NoCompletion? ==> Lists(codec, log, p.body)
  {
    hide Apply, Enabled, Lists, W.Admits;
    assert W.Admitted(codec, s, steps, r) ==
      W.Admits(s, steps[0]) + W.Admitted(codec, Apply(codec, s, steps[0]), steps[1..], r);
  }

  /** Whatever is retried, quarantined, resent or redelivered, every text in the system is an exchange
      that was published, or none at all. */
  lemma {:induction false} SourcedAlways(codec: Codec, log: seq<Exchange>, s: System, steps: seq<Step>, r: System)
    requires Lawful(codec) && Inv(codec, s) && W.Window(s.c) && s.c.link.alive && Sourced(codec, log, s)
    requires Runs(codec, s, steps, r) && PublishesOnly(codec, log, s, steps, r)
    requires forall i :: 0 <= i < |steps| ==> !steps[i].StopClient?
    ensures Sourced(codec, log, r)
    decreases |steps|
  {
    if steps != [] {
      var st := steps[0];
      assert Good(codec, s);
      hide Inv, Good, Apply, Enabled, Sourced, Lists, W.Window, W.Admits, PublishesOnly, Lawful;
      PublishesSplit(codec, log, s, steps, r);
      SourcedStep(codec, log, s, st);
      InvStep(codec, s, st);
      W.LineStep(codec, s, st);
      W.AliveStep(codec, s, st);
      SourcedAlways(codec, log, Apply(codec, s, st), steps[1..], r);
    }
  }

  // ---- A drained system restores the live histories ------------------------------------------------------------

  /** Every exchange of `log` was admitted for publication. */
  ghost predicate PublishesAll(codec: Codec, log: seq<Exchange>, s: System, steps: seq<Step>, r: System)
    requires Runs(codec, s, steps, r)
  {
    forall x :: x in log ==> exists p :: p in W.Admitted(codec, s, steps, r) && ChatMessage.Parse(codec, p.body) == Some(x)
  }

  /** Nothing that is an exchange waits in the client or is left in a queue of the broker. */
  ghost predicate Drained(codec: Codec, s: System) {
    && (forall p :: p in W.Line(s.c) ==> ChatMessage.Parse(codec, p.body).None?)
    && (forall j :: 0 <= j < |s.records| && s.records[j].place != Removed ==> ChatMessage.Parse(codec, s.records[j].body).None?)
  }

  lemma MoveBuilds(codec: Codec, s: System, m: Move, log: seq<Exchange>, ds: seq<Exchange>) returns (es: seq<Exchange>)
    requires Good(codec, s) && TextsIn(codec, s, log) && forall y :: y in ds ==> y in log
    ensures TableAfter(codec, s, H.Table(ds), m) == H.Table(es) && forall y :: y in es ==> y in log
  {
    es := ds;
    if Answering(s, m) {
      var k := s.c.tasks.workers[m.step.w];
      WorkerText(codec, s, m.step.w);
      hide Good;
      assert Lists(codec, log, s.records[IdOf(s, k.generation, k.tag)].body);
      var x := ChatMessage.Parse(codec, k.body);
      if x.Some? && !m.db.FailsBefore? {
        es := ds + [x.value];
        assert es[..|es| - 1] == ds;
      }
    }
  }

  /** The table is always what some sequence of deliveries of published exchanges makes of it. */
  lemma {:induction false} TableBuilt(codec: Codec, s: System, moves: seq<Move>, r: System, u: seq<Row>, log: seq<Exchange>, ds: seq<Exchange>)
    returns (es: seq<Exchange>)
    requires Inv(codec, s) && Plays(codec, s, H.Table(ds), moves, r, u)
    requires TextsIn(codec, r, log) && forall y :: y in ds ==> y in log
    ensures u == H.Table(es) && forall y :: y in es ==> y in log
    decreases |moves|
  {
    es := ds;
    if moves != [] {
      var m := moves[0];
      assert Good(codec, s);
      PlaysRuns(codec, s, H.Table(ds), moves, r, u);
      hide Inv, Good, TextsIn, SameTexts, Apply, Enabled, Honours, TableAfter, H.Table;
      RunTexts(codec, s, Steps(moves), r);
      TextsInBefore(codec, s, r, log);
      es := MoveBuilds(codec, s, m, log, ds);
      InvStep(codec, s, m.step);
      es := TableBuilt(codec, Apply(codec, s, m.step), moves[1..], r, u, log, es);
    }
  }

  /** An exchange whose row is in a table was delivered to it. */
  lemma HeldWasDelivered(es: seq<Exchange>, log: seq<Exchange>, x: Exchange)
    requires H.DistinctIds(log) && x in log && (forall y :: y in es ==> y in log) && Held(H.Table(es), x)
    ensures x in es
  {
    Unique(log);
    assert H.OneIdOneExchange(es);
    H.TableHolds(es);
    hide H.Table;
    var y :| y in es && H.IsRowOf(ChatMessage.UserRow(x), y);
    var a := ChatMessage.UserRow(x).messageId.value;
    assert a[..|a| - 2] == x.messageId == y.messageId;
  }

  lemma Unique(log: seq<Exchange>)
    requires H.DistinctIds(log)
    ensures H.OneIdOneExchange(log)
  {
    H.OneEach(log, log);
  }

  /** A drained run has delivered every exchange to the table, and nothing else. */
  lemma DrainedDelivered(codec: Codec, log: seq<Exchange>, s: System, moves: seq<Move>, r: System, u: seq<Row>) returns (es: seq<Exchange>)
    requires Lawful(codec) && H.DistinctIds(log)
    requires Init(s) && Plays(codec, s, [], moves, r, u) && Runs(codec, s, Steps(moves), r)
    requires forall i :: 0 <= i < |moves| ==> !moves[i].step.StopClient?
    requires TextsIn(codec, s, log) && PublishesOnly(codec, log, s, Steps(moves), r) && PublishesAll(codec, log, s, Steps(moves), r)
    requires Drained(codec, r)
    ensures u == H.Table(es) && H.DeliveredAll(log, es)
  {
    Starts(codec, log, s);
    hide Inv, Init, Plays, Lists, W.Admitted, PublishesOnly, Lawful, H.DistinctIds, H.Table, H.OneIdOneExchange, W.Line, W.Window;
    SourcedAlways(codec, log, s, Steps(moves), r);
    assert H.Table([]) == [] by { NoTable(); }
    es := TableBuilt(codec, s, moves, r, u, log, []);
    Unique(log);
    forall x | x in log ensures x in es {
      AllHeld(codec, log, s, moves, r, u, x);
      HeldWasDelivered(es, log, x);
    }
  }

  lemma NoTable()
    ensures H.Table([]) == []
  {
  }

  lemma Starts(codec: Codec, log: seq<Exchange>, s: System)
    requires Init(s) && TextsIn(codec, s, log)
    ensures Inv(codec, s) && W.Window(s.c) && s.c.link.alive && Sourced(codec, log, s)
  {
    InvInit(codec, s);
    W.WindowAlways(codec, s, [], s);
    assert s.c.out.inflight == [] && s.c.out.pending == [] && s.c.wires == map[];
    W.QueuedAppend([], Recover);
    hide Inv, TextsIn, Lists;
  }

  lemma AllHeld(codec: Codec, log: seq<Exchange>, s: System, moves: seq<Move>, r: System, u: seq<Row>, x: Exchange)
    requires Lawful(codec) && H.OneIdOneExchange(log)
    requires Init(s) && Plays(codec, s, [], moves, r, u) && Runs(codec, s, Steps(moves), r)
    requires forall i :: 0 <= i < |moves| ==> !moves[i].step.StopClient?
    requires TextsIn(codec, r, log) && PublishesAll(codec, log, s, Steps(moves), r)
    requires Drained(codec, r) && x in log
    ensures Held(u, x)
  {
    assert OneSource(codec, [], r, log);
    hide Lawful, H.OneIdOneExchange, Init, Plays, TextsIn, Held, W.Admitted, W.Line, OneSource, Kept, ChatMessage.Parse;
    var p :| p in W.Admitted(codec, s, Steps(moves), r) && ChatMessage.Parse(codec, p.body) == Some(x);
    NothingLost(codec, s, [], moves, r, u, p, x, log);
  }

  /** After any interleaving of commits, and any run of client, broker and consumer in which the
      committed exchanges are what was published, the restored histories are the live ones as soon as
      no exchange waits in the client or in a queue: whatever failed, was resent, retried or
      redelivered on the way, and whichever order the query returns equal times in. */
  lemma DrainedRestores(codec: Codec, qs: seq<H.Request>, s: System, moves: seq<Move>, r: System, u: seq<Row>, rs: seq<Row>)
    requires H.Typed(codec, qs) && H.DistinctIds(H.Run(codec, qs).log)
    requires Init(s) && Plays(codec, s, [], moves, r, u) && Runs(codec, s, Steps(moves), r)
    requires forall i :: 0 <= i < |moves| ==> !moves[i].step.StopClient?
    requires var log := H.Run(codec, qs).log;
      TextsIn(codec, s, log) && PublishesOnly(codec, log, s, Steps(moves), r) && PublishesAll(codec, log, s, Steps(moves), r)
    requires Drained(codec, r) && H.QueryResult(rs, u)
    ensures var w := H.Run(codec, qs);
      && H.Restore(rs).Some? && H.IdsMatch(H.Restore(rs).value)
      && (forall k :: H.Present(H.Restore(rs).value, k) <==> k in w.chats)
      && (forall k :: k in w.chats ==>
            H.Restore(rs).value.chats[k.user][k.session] == w.chats[k] && H.Canonical(w.chats[k]))
  {
    hide *;
    LawfulOf(codec, qs);
    var es := DrainedDelivered(codec, H.Run(codec, qs).log, s, moves, r, u);
    H.RestoreIsIdentity(codec, qs, es, rs);
  }

  lemma LawfulOf(codec: Codec, qs: seq<H.Request>)
    requires H.Typed(codec, qs)
    ensures Lawful(codec)
  {
    hide Lawful;
  }
}
