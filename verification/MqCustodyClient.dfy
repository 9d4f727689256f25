/** Client steps keep the custody invariant. */
module MqCustodyClient {
  import opened Counting
  import opened Json
  import opened MqClient
  import opened MqSystem
  import opened MqRecovery
  import opened MqTokens
  import opened MqCustody

  // ---- Single writes ----------------------------------------------------------------------------

  lemma BrokerSide(codec: Codec, s: System, c: Client)
    requires Good(codec, s) && c.queueName == s.c.queueName
    requires forall g :: g in s.conns ==> WireOf(s.c, g).sent <= WireOf(c, g).sent
    ensures Extends(s, s.(c := c))
  {}

  /** What only depends on the wires, the broker and history survives when the wires do not change. */
  lemma WiresSame(codec: Codec, s: System, c: Client)
    requires Good(codec, s) && c.queueName == s.c.queueName && c.wires == s.c.wires
    ensures Routed(s.(c := c)) && Acks(codec, s.(c := c)) && Places(codec, s.(c := c))
  {
    var r := s.(c := c);
    BrokerSide(codec, s, c);
    AcksExtend(codec, s, r);
    forall id | 0 <= id < |r.records| && r.records[id].place == Removed ensures Justified(codec, r, id) {
      GoneExtends(codec, s, r, id);
    }
    assert forall g :: WireOf(r.c, g) == WireOf(s.c, g);
    assert forall g, t :: g in s.conns && SettleTaken(s, g, t) ==> SettleTaken(r, g, t);
  }

  /** The same publishes on every wire, and at least as many settle frames. */
  ghost predicate SentSame(s: System, c: Client) {
    forall g :: WireOf(c, g).sent == WireOf(s.c, g).sent && |WireOf(c, g).settles| >= |WireOf(s.c, g).settles|
  }

  /** The client is on the same channel, or on none, as before. */
  ghost predicate ChannelSame(s: System, c: Client) {
    && c.link.generation == s.c.link.generation && c.link.channels == s.c.link.channels
    && (c.link.channels ==> c.link.shuttingDown == s.c.link.shuttingDown && (s.c.link.recovering ==> c.link.recovering))
  }

  lemma ShapeKept(s: System, c: Client)
    requires Shape(s) && SentSame(s, c) && ChannelSame(s, c)
    requires c.link.shuttingDown ==> !c.link.connection && !c.link.channels
    requires !c.link.channels ==> c.out.inflight == [] && c.out.nextTag == 1
    ensures Shape(s.(c := c))
  {
    var r := s.(c := c);
    forall g | g in r.conns ensures ConnShape(r, g) { assert ConnShape(s, g); }
  }

  lemma AlignedKept(s: System, c: Client)
    requires Aligned(s) && SentSame(s, c) && ChannelSame(s, c)
    requires c.out.inflight == s.c.out.inflight && c.out.nextTag == s.c.out.nextTag
    ensures Aligned(s.(c := c))
  {}

  lemma NewerKept(s: System, c: Client)
    requires Newer(s) && ChannelSame(s, c) && c.out.inflight == s.c.out.inflight
    ensures Newer(s.(c := c))
  {}

  lemma HonestKept(s: System, c: Client)
    requires Honest(s) && ChannelSame(s, c)
    ensures Honest(s.(c := c))
  {}

  /** A client whose channel, in-flight entries and wires are as before keeps the books. */
  lemma BooksKept(codec: Codec, s: System, c: Client)
    requires Good(codec, s) && c.queueName == s.c.queueName && c.wires == s.c.wires && ChannelSame(s, c)
    requires c.link.shuttingDown ==> !c.link.connection && !c.link.channels
    requires c.out.inflight == s.c.out.inflight && c.out.nextTag == s.c.out.nextTag
    requires OutOk(codec, s.(c := c)) && TasksOk(codec, s.(c := c))
    ensures Good(codec, s.(c := c))
  {
    assert SentSame(s, c);
    NoChannel(codec, s);
    hide Shape, Aligned, Newer, OutOk, TasksOk, Routed, Honest, Acks, Places, SentSame;
    WiresSame(codec, s, c);
    ShapeKept(s, c);
    AlignedKept(s, c);
    NewerKept(s, c);
    HonestKept(s, c);
  }

  lemma NoChannel(codec: Codec, s: System)
    requires Good(codec, s)
    ensures !s.c.link.channels ==> s.c.out.inflight == [] && s.c.out.nextTag == 1
  {}

  /** Connection flags may change as long as a recovering client stays so on its channel. */
  lemma LinkKeeps(codec: Codec, s: System, l: Link)
    requires Good(codec, s)
    requires l.generation == s.c.link.generation && l.channels == s.c.link.channels
    requires l.channels ==> l.shuttingDown == s.c.link.shuttingDown && (s.c.link.recovering ==> l.recovering)
    requires l.shuttingDown ==> !l.connection && !l.channels
    ensures Good(codec, s.(c := s.c.(link := l)))
  {
    var c := s.c.(link := l);
    BrokerSide(codec, s, c);
    OutExtends(codec, s, s.(c := c));
    TasksExtend(codec, s, s.(c := c));
    hide Good, OutOk, TasksOk, Extends;
    BooksKept(codec, s, c);
  }

  lemma TasksKeep(codec: Codec, s: System, t: Tasks)
    requires Good(codec, s) && TasksOk(codec, s.(c := s.c.(tasks := t)))
    ensures Good(codec, s.(c := s.c.(tasks := t)))
  {
    var c := s.c.(tasks := t);
    BrokerSide(codec, s, c);
    OutExtends(codec, s, s.(c := c));
    NotBoth(codec, s);
    hide Good, OutOk, TasksOk, Extends;
    BooksKept(codec, s, c);
  }

  lemma NotBoth(codec: Codec, s: System)
    requires Good(codec, s)
    ensures s.c.link.shuttingDown ==> !s.c.link.connection && !s.c.link.channels
  {}

  /** Queueing a functor that is itself in order. */
  lemma QueueKeeps(codec: Codec, s: System, x: Closure)
    requires Good(codec, s) && ClosureOk(codec, s, x)
    ensures Good(codec, s.(c := Queue(s.c, x)))
  {
    var t := s.c.tasks.(loop := s.c.tasks.loop + [x]);
    var r := s.(c := s.c.(tasks := t));
    BrokerSide(codec, s, r.c);
    forall i | 0 <= i < |t.loop| ensures ClosureOk(codec, r, t.loop[i]) {
      ClosureExtends(codec, s, r, t.loop[i]);
    }
    TasksRest(codec, s, t);
    TasksKeep(codec, s, t);
  }

  /** Task lists whose contents did not change are still in order. */
  lemma TasksRest(codec: Codec, s: System, t: Tasks)
    requires Good(codec, s)
    ensures var r := s.(c := s.c.(tasks := t)); var u := s.c.tasks;
      && (t.loop == u.loop ==> forall i :: 0 <= i < |t.loop| ==> ClosureOk(codec, r, t.loop[i]))
      && (t.timers == u.timers ==> forall i :: 0 <= i < |t.timers| ==> PubOk(codec, r, t.timers[i].item))
      && (t.workers == u.workers ==> forall i :: 0 <= i < |t.workers| ==> WorkerOk(r, t.workers[i]))
      && (t.publishers == u.publishers ==> forall i :: 0 <= i < |t.publishers| ==> PublisherOk(codec, r, t.publishers[i]))
  {
    var r := s.(c := s.c.(tasks := t));
    assert TasksOk(codec, s);
    forall i | 0 <= i < |s.c.tasks.loop| ensures ClosureOk(codec, r, s.c.tasks.loop[i]) {
      BrokerSide(codec, s, r.c);
      ClosureExtends(codec, s, r, s.c.tasks.loop[i]);
    }
  }

  /** Writing a justified settle frame on the current consumer channel. */
  lemma SettleKeeps(codec: Codec, s: System, f: Settle)
    requires Good(codec, s) && s.c.link.channels && AckOk(codec, s, s.c.link.generation, f)
    ensures Good(codec, s.(c := WriteSettle(s.c, f)))
  {
    var c := WriteSettle(s.c, f);
    var r := s.(c := c);
    BrokerSide(codec, s, c);
    OutExtends(codec, s, r);
    TasksExtend(codec, s, r);
    NotBoth(codec, s);
    NoChannel(codec, s);
    assert SentSame(s, c) && ChannelSame(s, c);
    SettlePlaces(codec, s, f);
    SettleAcks(codec, s, f);
    SettleRouted(s, f);
    hide Shape, Aligned, Newer, OutOk, TasksOk, Routed, Honest, Acks, Places, SentSame, ChannelSame;
    ShapeKept(s, c);
    AlignedKept(s, c);
    NewerKept(s, c);
    HonestKept(s, c);
  }

  lemma SettleAcks(codec: Codec, s: System, f: Settle)
    requires Good(codec, s) && s.c.link.channels && AckOk(codec, s, s.c.link.generation, f)
    ensures Acks(codec, s.(c := WriteSettle(s.c, f)))
  {
    var r := s.(c := WriteSettle(s.c, f));
    var now := s.c.link.generation;
    BrokerSide(codec, s, r.c);
    forall g, i | 0 <= i < |WireOf(r.c, g).settles| ensures AckOk(codec, r, g, WireOf(r.c, g).settles[i]) {
      if g == now && i == |WireOf(s.c, g).settles| {
        AckExtends(codec, s, r, g, f);
      } else {
        AckExtends(codec, s, r, g, WireOf(s.c, g).settles[i]);
      }
    }
  }

  lemma SettleRouted(s: System, f: Settle)
    requires Routed(s) && s.c.link.channels
    ensures Routed(s.(c := WriteSettle(s.c, f)))
  {
    var r := s.(c := WriteSettle(s.c, f));
    assert forall g :: WireOf(r.c, g).sent == WireOf(s.c, g).sent;
  }

  lemma SettlePlaces(codec: Codec, s: System, f: Settle)
    requires Good(codec, s) && s.c.link.channels
    ensures Places(codec, s.(c := WriteSettle(s.c, f)))
  {
    var r := s.(c := WriteSettle(s.c, f));
    BrokerSide(codec, s, r.c);
    forall id | 0 <= id < |r.records| && r.records[id].place == Removed ensures Justified(codec, r, id) {
      GoneExtends(codec, s, r, id);
    }
    forall g, t | g in s.conns && SettleTaken(s, g, t) ensures SettleTaken(r, g, t) {
      var j :| 0 <= j < s.conns[g].taken && j < |WireOf(s.c, g).settles| && WireOf(s.c, g).settles[j].tag == t;
      assert WireOf(r.c, g).settles[j].tag == t;
    }
  }

  lemma SentWires(codec: Codec, s: System, p: Publication)
    requires Good(codec, s) && s.c.link.channels
    ensures var r := s.(c := WriteSent(s.c, p));
      && Extends(s, r) && Routed(r) && Acks(codec, r) && Places(codec, r)
      && (forall g :: g in r.conns ==> ConnShape(r, g))
  {
    var r := s.(c := WriteSent(s.c, p));
    SentFrame(codec, s, p);
    hide Good, WriteSent;
    forall g, i | 0 <= i < |WireOf(r.c, g).settles| ensures AckOk(codec, r, g, WireOf(r.c, g).settles[i]) {
      AckExtends(codec, s, r, g, WireOf(s.c, g).settles[i]);
    }
    forall id | 0 <= id < |r.records| && r.records[id].place == Removed ensures Justified(codec, r, id) {
      GoneExtends(codec, s, r, id);
    }
    assert forall g, t :: g in s.conns && SettleTaken(s, g, t) ==> SettleTaken(r, g, t);
  }

  lemma SentFrame(codec: Codec, s: System, p: Publication)
    requires Good(codec, s) && s.c.link.channels
    ensures Acks(codec, s) && Places(codec, s)
    ensures var r := s.(c := WriteSent(s.c, p));
      && Extends(s, r) && Routed(r) && (forall g :: g in r.conns ==> ConnShape(r, g))
      && (forall g :: WireOf(r.c, g).settles == WireOf(s.c, g).settles)
  {
    hide Aligned, Newer, OutOk, TasksOk, Honest, Acks, Places;
    var r := s.(c := WriteSent(s.c, p));
    assert forall g :: WireOf(s.c, g).sent <= WireOf(r.c, g).sent;
    BrokerSide(codec, s, r.c);
    assert forall g :: g in r.conns ==> ConnShape(s, g) && ConnShape(r, g);
  }

  /** A publish that was accepted takes the next tag, which is the broker's next number. */
  lemma FrontKeeps(codec: Codec, s: System)
    requires Good(codec, s) && s.c.link.channels && !s.c.link.recovering && s.c.out.pending != []
    ensures Good(codec, s.(c := PublishFront(s.c)))
  {
    var r := s.(c := PublishFront(s.c));
    var p := s.c.out.pending[0];
    SentWires(codec, s, p);
    var mid := s.(c := WriteSent(s.c, p));
    assert r.c.wires == mid.c.wires;
    BrokerSide(codec, s, r.c);
    BrokerSide(codec, s, mid.c);
    TasksExtend(codec, s, r);
    FrontOut(codec, s);
    FrontAligned(codec, s);
    FrontNewer(codec, s);
    FrontFrame(codec, s);
  }

  lemma FrontOut(codec: Codec, s: System)
    requires Good(codec, s) && s.c.out.pending != []
    ensures OutOk(codec, s.(c := PublishFront(s.c)))
  {
    var r := s.(c := PublishFront(s.c));
    BrokerSide(codec, s, r.c);
    forall i | 0 <= i < |r.c.out.pending| ensures PubOk(codec, r, r.c.out.pending[i]) {
      PubExtends(codec, s, r, s.c.out.pending[i + 1]);
    }
    forall i | 0 <= i < |r.c.out.inflight| ensures PubOk(codec, r, r.c.out.inflight[i].item) {
      if i < |s.c.out.inflight| { PubExtends(codec, s, r, s.c.out.inflight[i].item); }
      else { PubExtends(codec, s, r, s.c.out.pending[0]); }
    }
  }

  lemma FrontAligned(codec: Codec, s: System)
    requires Good(codec, s) && s.c.link.channels && !s.c.link.recovering && s.c.out.pending != []
    ensures Aligned(s.(c := PublishFront(s.c)))
  {
    var r := s.(c := PublishFront(s.c));
    var now := s.c.link.generation;
    var o := s.c.out;
    assert WireOf(r.c, now).sent == WireOf(s.c, now).sent + 
      [Outgoing(o.pending[0].queue, o.pending[0].body, o.pending[0].completion)];
    assert r.c.out.inflight == o.inflight + [Entry(o.nextTag, o.pending[0])];
  }

  lemma FrontNewer(codec: Codec, s: System)
    requires Good(codec, s) && s.c.link.channels && !s.c.link.recovering && s.c.out.pending != []
    ensures Newer(s.(c := PublishFront(s.c)))
  {
    var r := s.(c := PublishFront(s.c));
    var now := s.c.link.generation;
    assert ConnShape(s, now);
    assert r.c.out.inflight == s.c.out.inflight + [Entry(s.c.out.nextTag, s.c.out.pending[0])];
    assert |r.conns[now].outcomes| < s.c.out.nextTag;
  }

  lemma FrontFrame(codec: Codec, s: System)
    requires Good(codec, s) && s.c.link.channels && s.c.out.pending != []
    ensures var r := s.(c := PublishFront(s.c)); Shape(r) && Routed(r) && Acks(codec, r) && Places(codec, r) && Honest(r)
  {
    var p := s.c.out.pending[0];
    var r := s.(c := PublishFront(s.c));
    var mid := s.(c := WriteSent(s.c, p));
    SentWires(codec, s, p);
    assert Shape(s) && Honest(s);
    hide Good, Extends, Routed, Acks, Places, Honest, ConnShape;
    assert r == mid.(c := r.c) && r.c.wires == mid.c.wires && r.c.link == s.c.link && r.c.queueName == mid.c.queueName;
    BooksSame(codec, mid, r.c);
    HonestKept(s, r.c);
  }

  /** What the broker relies on does not depend on the client's own books. */
  lemma BooksSame(codec: Codec, s: System, c: Client)
    requires Routed(s) && Acks(codec, s) && Places(codec, s) && forall g :: g in s.conns ==> ConnShape(s, g)
    requires c.wires == s.c.wires && c.link == s.c.link && c.queueName == s.c.queueName
    ensures var r := s.(c := c); Routed(r) && Acks(codec, r) && Places(codec, r) && forall g :: g in r.conns ==> ConnShape(r, g)
  {
    var r := s.(c := c);
    assert forall g :: WireOf(r.c, g) == WireOf(s.c, g);
    assert forall g :: g in r.conns ==> ConnShape(s, g) && ConnShape(r, g);
    assert Extends(s, r);
    AcksExtend(codec, s, r);
    assert forall g, t :: g in s.conns && SettleTaken(s, g, t) ==> SettleTaken(r, g, t);
    forall id | 0 <= id < |r.records| && r.records[id].place == Removed ensures Justified(codec, r, id) {
      GoneExtends(codec, s, r, id);
    }
  }

  /** A publish that failed, possibly after the message had reached the wire. */
  lemma TornKeeps(codec: Codec, s: System, torn: bool)
    requires Good(codec, s) && s.c.link.channels && !s.c.link.recovering && s.c.out.pending != []
    ensures Good(codec, s.(c := ConnectionFailed(if torn then WriteSent(s.c, s.c.out.pending[0]) else s.c)))
  {
    if torn {
      var p := s.c.out.pending[0];
      var l := s.c.link.(recovering := true, producerReady := false);
      LinkKeeps(codec, s, l);
      var s1 := s.(c := s.c.(link := l));
      SentKeeps(codec, s1, p);
      var s2 := s1.(c := WriteSent(s1.c, p));
      QueueKeeps(codec, s2, Recover);
      assert ConnectionFailed(WriteSent(s.c, p)) == Queue(s2.c, Recover);
    } else {
      FailedKeep(codec, s);
    }
  }

  lemma SentKeeps(codec: Codec, s: System, p: Publication)
    requires Good(codec, s) && s.c.link.channels && s.c.link.recovering
    ensures Good(codec, s.(c := WriteSent(s.c, p)))
  {
    var c := WriteSent(s.c, p);
    var r := s.(c := c);
    BrokerSide(codec, s, c);
    OutExtends(codec, s, r);
    TasksExtend(codec, s, r);
    SentWires(codec, s, p);
    assert ChannelSame(s, c);
    NotBoth(codec, s);
    hide Aligned, Newer, OutOk, TasksOk, Routed, Honest, Acks, Places, ChannelSame, ConnShape;
    SentAligned(s, p);
    NewerKept(s, c);
    HonestKept(s, c);
  }

  lemma SentAligned(s: System, p: Publication)
    requires Aligned(s) && s.c.link.channels && s.c.link.recovering
    ensures Aligned(s.(c := WriteSent(s.c, p)))
  {
    var r := s.(c := WriteSent(s.c, p));
    assert WireOf(s.c, s.c.link.generation).sent <= WireOf(r.c, s.c.link.generation).sent;
  }

  lemma FailedKeep(codec: Codec, s: System)
    requires Good(codec, s)
    ensures Good(codec, s.(c := ConnectionFailed(s.c)))
  {
    if s.c.link.shuttingDown || s.c.link.recovering {
      assert s.(c := s.c) == s;
    } else {
      var l := s.c.link.(recovering := true, producerReady := false);
      LinkKeeps(codec, s, l);
      QueueKeeps(codec, s.(c := s.c.(link := l)), Recover);
    }
  }

  lemma {:induction false} DrainLoopGood(codec: Codec, s: System, room: nat, torn: bool)
    requires Good(codec, s) && s.c.link.channels && !s.c.link.recovering
    ensures Good(codec, s.(c := DrainLoop(s.c, room, torn)))
    decreases |s.c.out.pending|
  {
    hide Good;
    if s.c.out.pending == [] || |s.c.out.inflight| >= MAX_INFLIGHT {
      assert s.(c := s.c) == s;
    } else if room == 0 {
      TornKeeps(codec, s, torn);
    } else {
      FrontKeeps(codec, s);
      DrainLoopGood(codec, s.(c := PublishFront(s.c)), room - 1, torn);
    }
  }

  lemma DrainGood(codec: Codec, s: System, room: nat, torn: bool)
    requires Good(codec, s)
    ensures Good(codec, s.(c := DrainPending(s.c, room, torn)))
  {
    hide Good;
    if !s.c.link.producerReady || s.c.link.recovering || !s.c.link.channels {
      assert s.(c := s.c) == s;
    } else {
      DrainLoopGood(codec, s, room, torn);
    }
  }

  // ---- Confirmations ------------------------------------------------------------------------------

  /** Every in-flight entry the notice covers has been stored by the broker. */
  ghost predicate CoveredStored(s: System, tag: nat, multiple: bool) {
    s.c.link.channels && s.c.link.generation in s.conns &&
    var os := s.conns[s.c.link.generation].outcomes;
    forall i :: 0 <= i < |s.c.out.inflight| && Covers(tag, multiple, s.c.out.inflight[i].tag) ==>
      1 <= s.c.out.inflight[i].tag <= |os| && os[s.c.out.inflight[i].tag - 1].Stored?
  }

  /** A covered entry is the stored copy of the very delivery its completion settles, which justifies
      acknowledging that delivery. */
  lemma CoveredJustifies(codec: Codec, s: System, i: nat, tag: nat, multiple: bool)
    requires Good(codec, s) && CoveredStored(s, tag, multiple) && i < |s.c.out.inflight|
    requires Covers(tag, multiple, s.c.out.inflight[i].tag) && s.c.out.inflight[i].item.completion.Settles?
    ensures var e := s.c.out.inflight[i]; var k := e.item.completion;
      e.tag >= 1 && OwnCopy(codec, s, k.generation, k.tag, s.c.link.generation, e.tag - 1) && AckOk(codec, s, k.generation, AckFrame(k.tag))
  {
    var e := s.c.out.inflight[i];
    var k := e.item.completion;
    var j := s.conns[s.c.link.generation].outcomes[e.tag - 1].id;
    assert PubOk(codec, s, e.item);
    var id := IdOf(s, k.generation, k.tag);
    assert id < j by { assert Newer(s); }
    assert j < |s.records| && s.records[j].queue == e.item.queue && s.records[j].body == e.item.body by {
      assert Routed(s) && Aligned(s);
    }
    assert CopyOf(codec, s, id, j);
    assert OwnCopy(codec, s, k.generation, k.tag, s.c.link.generation, e.tag - 1) by {
      assert Aligned(s) && Known(s, k.generation, k.tag);
    }
  }

  lemma RemoveKeeps(codec: Codec, s: System, i: nat)
    requires Good(codec, s) && s.c.link.channels && i < |s.c.out.inflight|
    ensures Good(codec, Removed1(s, i))
  {
    RemoveBooks(codec, s, i);
    RemoveNewer(s, i);
    RemoveOut(codec, s, i);
    WiresSame(codec, s, Removed1(s, i).c);
    BrokerSide(codec, s, Removed1(s, i).c);
    TasksExtend(codec, s, Removed1(s, i));
  }

  lemma RemoveOut(codec: Codec, s: System, i: nat)
    requires Good(codec, s) && i < |s.c.out.inflight|
    ensures OutOk(codec, Removed1(s, i))
  {
    var es := s.c.out.inflight;
    var r := Removed1(s, i);
    var fs := r.c.out.inflight;
    assert forall j :: 0 <= j < |fs| ==> fs[j] == es[if j < i then j else j + 1];
    BrokerSide(codec, s, r.c);
    forall j | 0 <= j < |fs| ensures PubOk(codec, r, fs[j].item) {
      PubExtends(codec, s, r, es[if j < i then j else j + 1].item);
    }
    forall j | 0 <= j < |r.c.out.pending| ensures PubOk(codec, r, r.c.out.pending[j]) {
      PubExtends(codec, s, r, s.c.out.pending[j]);
    }
  }

  /** The state after erasing in-flight entry `i`. */
  ghost function Removed1(s: System, i: nat): System
    requires i < |s.c.out.inflight|
  {
    var es := s.c.out.inflight;
    s.(c := s.c.(out := s.c.out.(inflight := es[..i] + es[i + 1..], outstanding := s.c.out.outstanding - 1)))
  }

  lemma RemoveBooks(codec: Codec, s: System, i: nat)
    requires Good(codec, s) && s.c.link.channels && i < |s.c.out.inflight|
    ensures Shape(Removed1(s, i)) && Aligned(Removed1(s, i)) && Honest(Removed1(s, i))
  {
    var c := Removed1(s, i).c;
    assert SentSame(s, c) && ChannelSame(s, c);
    NotBoth(codec, s);
    RemoveAligned(s, i);
    ShapeKept(s, c);
    HonestKept(s, c);
  }

  lemma RemoveAligned(s: System, i: nat)
    requires Aligned(s) && i < |s.c.out.inflight|
    ensures Aligned(Removed1(s, i))
  {
    var es := s.c.out.inflight;
    var r := Removed1(s, i);
    var fs := r.c.out.inflight;
    assert forall j :: 0 <= j < |fs| ==> fs[j] == es[if j < i then j else j + 1];
    assert forall g :: WireOf(r.c, g) == WireOf(s.c, g);
  }

  lemma RemoveNewer(s: System, i: nat)
    requires Newer(s) && i < |s.c.out.inflight|
    ensures Newer(Removed1(s, i))
  {
    var es := s.c.out.inflight;
    var fs := Removed1(s, i).c.out.inflight;
    assert forall j :: 0 <= j < |fs| ==> fs[j] == es[if j < i then j else j + 1];
  }

  lemma RemoveCovered(s: System, i: nat, tag: nat, multiple: bool)
    requires CoveredStored(s, tag, multiple) && i < |s.c.out.inflight|
    ensures CoveredStored(s.(c := ConfirmAt(s.c, i)), tag, multiple)
  {
    var es := s.c.out.inflight;
    var fs := es[..i] + es[i + 1..];
    assert ConfirmAt(s.c, i).out.inflight == fs;
    assert forall j :: 0 <= j < |fs| ==> fs[j] == es[if j < i then j else j + 1];
  }

  lemma ConfirmAtKeeps(codec: Codec, s: System, i: nat, tag: nat, multiple: bool)
    requires Good(codec, s) && CoveredStored(s, tag, multiple) && i < |s.c.out.inflight|
    requires Covers(tag, multiple, s.c.out.inflight[i].tag)
    ensures Good(codec, s.(c := ConfirmAt(s.c, i)))
  {
    hide Good;
    var k := s.c.out.inflight[i].item.completion;
    var s1 := Removed1(s, i);
    RemoveKeeps(codec, s, i);
    if k.Settles? && s.c.link.alive && k.generation == s.c.link.generation {
      CoveredJustifies(codec, s, i, tag, multiple);
      BrokerSide(codec, s, s1.c);
      AckExtends(codec, s, s1, k.generation, AckFrame(k.tag));
      SettleKeeps(codec, s1, AckFrame(k.tag));
    }
  }

  lemma {:induction false} ConfirmGood(codec: Codec, s: System, i: nat, tag: nat, multiple: bool)
    requires Good(codec, s) && CoveredStored(s, tag, multiple) && i <= |s.c.out.inflight|
    ensures Good(codec, s.(c := ConfirmLoop(s.c, i, tag, multiple)))
    decreases |s.c.out.inflight| - i
  {
    hide Good;
    if i == |s.c.out.inflight| {
      assert s.(c := s.c) == s;
    } else if !Covers(tag, multiple, s.c.out.inflight[i].tag) {
      ConfirmGood(codec, s, i + 1, tag, multiple);
    } else {
      ConfirmAtKeeps(codec, s, i, tag, multiple);
      RemoveCovered(s, i, tag, multiple);
      ConfirmGood(codec, s.(c := ConfirmAt(s.c, i)), i, tag, multiple);
    }
  }

  /** A confirmation read before any return or refusal covers stored publishes only. */
  lemma HonestCovers(codec: Codec, s: System, tag: nat, multiple: bool)
    requires Good(codec, s) && s.c.link.channels && AllStored(s.conns[s.c.link.generation].outcomes, tag)
    ensures CoveredStored(s, tag, multiple)
  {
    assert Aligned(s);
  }
}
