/** Every step of client and broker keeps the custody invariant, hence no message is lost. */
module MqCustodySteps {
  import opened Counting
  import opened Json
  import opened MqClient
  import opened MqSystem
  import opened MqRecovery
  import opened MqTokens
  import opened MqCustody
  import opened MqCustodyClient

  // ---- Task lists ---------------------------------------------------------------------------------

  lemma PublishersKeep(codec: Codec, s: System, ps: seq<Publisher>)
    requires Good(codec, s) && forall i :: 0 <= i < |ps| ==> PublisherOk(codec, s, ps[i])
    ensures Good(codec, s.(c := s.c.(tasks := s.c.tasks.(publishers := ps))))
  {
    var t := s.c.tasks.(publishers := ps);
    var r := s.(c := s.c.(tasks := t));
    TasksRest(codec, s, t);
    BrokerSide(codec, s, r.c);
    forall i | 0 <= i < |ps| ensures PublisherOk(codec, r, ps[i]) {
      assert PublisherOk(codec, s, ps[i]);
      if !ps[i].Done? { PubExtends(codec, s, r, ps[i].item); }
    }
    TasksKeep(codec, s, t);
  }

  lemma BeginKeeps(codec: Codec, s: System, item: Publication)
    requires Good(codec, s) && PubOk(codec, s, item)
    ensures Good(codec, s.(c := BeginPublish(s.c, item)))
  {
    if s.c.link.alive {
      assert TasksOk(codec, s);
      PublishersKeep(codec, s, s.c.tasks.publishers + [Loaded(s.c.out.outstanding, item)]);
    } else {
      assert s.(c := s.c) == s;
    }
  }

  lemma PublisherSetKeeps(codec: Codec, s: System, p: nat, x: Publisher)
    requires Good(codec, s) && p < |s.c.tasks.publishers| && PublisherOk(codec, s, x)
    ensures Good(codec, s.(c := SetPublisher(s.c, p, x)))
  {
    assert TasksOk(codec, s);
    PublishersKeep(codec, s, s.c.tasks.publishers[p := x]);
  }

  /** The pending queue and the counter are not part of the books on the channel. */
  lemma OutKeeps(codec: Codec, s: System, o: Outbox)
    requires Good(codec, s) && o.inflight == s.c.out.inflight && o.nextTag == s.c.out.nextTag
    requires forall i :: 0 <= i < |o.pending| ==> PubOk(codec, s, o.pending[i])
    ensures Good(codec, s.(c := s.c.(out := o)))
  {
    var r := s.(c := s.c.(out := o));
    BrokerSide(codec, s, r.c);
    TasksExtend(codec, s, r);
    NotBoth(codec, s);
    assert OutOk(codec, s);
    forall i | 0 <= i < |o.pending| ensures PubOk(codec, r, o.pending[i]) { PubExtends(codec, s, r, o.pending[i]); }
    forall i | 0 <= i < |o.inflight| ensures PubOk(codec, r, o.inflight[i].item) {
      PubExtends(codec, s, r, s.c.out.inflight[i].item);
    }
    hide Good, TasksOk, Extends, PubOk;
    BooksKept(codec, s, r.c);
  }

  /** Completing with failure writes at most a reject, which needs no justification. */
  lemma RejectKeeps(codec: Codec, s: System, k: Completion)
    requires Good(codec, s)
    ensures Good(codec, s.(c := RunCompletion(s.c, k, false)))
  {
    hide Good;
    if k.Settles? && s.c.link.alive && k.generation == s.c.link.generation && s.c.link.channels {
      SettleKeeps(codec, s, RejectFrame(k.tag));
    } else {
      assert s.(c := s.c) == s;
    }
  }

  lemma ReserveKeeps(codec: Codec, s: System, p: nat, count: int, item: Publication, spurious: bool)
    requires Good(codec, s) && p < |s.c.tasks.publishers| && PubOk(codec, s, item)
    ensures Good(codec, s.(c := TryReserve(s.c, p, count, item, spurious)))
  {
    assert OutOk(codec, s);
    hide Good;
    if count >= MAX_PENDING {
      PublisherSetKeeps(codec, s, p, Done);
      RejectKeeps(codec, s.(c := SetPublisher(s.c, p, Done)), item.completion);
    } else if count == s.c.out.outstanding && !spurious {
      var o := s.c.out.(outstanding := s.c.out.outstanding + 1);
      var s1 := s.(c := s.c.(out := o));
      OutKeeps(codec, s, o);
      BrokerSide(codec, s, s1.c);
      PubExtends(codec, s, s1, item);
      PublisherSetKeeps(codec, s1, p, Reserved(item));
    } else {
      PublisherSetKeeps(codec, s, p, Loaded(s.c.out.outstanding, item));
    }
  }

  lemma TurnKeeps(codec: Codec, s: System, p: nat, spurious: bool)
    requires Good(codec, s) && p < |s.c.tasks.publishers|
    ensures Good(codec, s.(c := PublisherTurn(s.c, p, spurious)))
  {
    assert PublisherOk(codec, s, s.c.tasks.publishers[p]) by { assert TasksOk(codec, s); }
    hide Good;
    match s.c.tasks.publishers[p]
    case Loaded(count, item) => ReserveKeeps(codec, s, p, count, item, spurious);
    case Reserved(item) =>
      var s1 := s.(c := SetPublisher(s.c, p, Done));
      PublisherSetKeeps(codec, s, p, Done);
      BrokerSide(codec, s, s1.c);
      PubExtends(codec, s, s1, item);
      QueueKeeps(codec, s1, Enqueue(item));
    case Done => assert s.(c := s.c) == s;
  }

  lemma TimersKeep(codec: Codec, s: System, ts: seq<Timer>)
    requires Good(codec, s) && forall i :: 0 <= i < |ts| ==> PubOk(codec, s, ts[i].item)
    ensures Good(codec, s.(c := s.c.(tasks := s.c.tasks.(timers := ts))))
  {
    var t := s.c.tasks.(timers := ts);
    var r := s.(c := s.c.(tasks := t));
    TasksRest(codec, s, t);
    BrokerSide(codec, s, r.c);
    forall i | 0 <= i < |ts| ensures PubOk(codec, r, ts[i].item) { PubExtends(codec, s, r, ts[i].item); }
    TasksKeep(codec, s, t);
  }

  lemma FireKeeps(codec: Codec, s: System, i: nat)
    requires Good(codec, s) && i < |s.c.tasks.timers| && s.c.tasks.timers[i].armed
    requires s.c.tasks.timers[i].item.completion.Settles?
    ensures Good(codec, s.(c := FireTimer(s.c, i)))
  {
    assert TasksOk(codec, s);
    var t := s.c.tasks.timers[i];
    var ts := s.c.tasks.timers[i := t.(armed := false)];
    var s1 := s.(c := s.c.(tasks := s.c.tasks.(timers := ts)));
    TimersKeep(codec, s, ts);
    BrokerSide(codec, s, s1.c);
    PubExtends(codec, s, s1, t.item);
    BeginKeeps(codec, s1, t.item);
  }

  // ---- The event loop -----------------------------------------------------------------------------

  lemma PopKeeps(codec: Codec, s: System)
    requires Good(codec, s) && s.c.tasks.loop != []
    ensures Good(codec, s.(c := s.c.(tasks := s.c.tasks.(loop := s.c.tasks.loop[1..]))))
  {
    var t := s.c.tasks.(loop := s.c.tasks.loop[1..]);
    var r := s.(c := s.c.(tasks := t));
    assert TasksOk(codec, s);
    TasksRest(codec, s, t);
    BrokerSide(codec, s, r.c);
    forall i | 0 <= i < |t.loop| ensures ClosureOk(codec, r, t.loop[i]) {
      ClosureExtends(codec, s, r, s.c.tasks.loop[i + 1]);
    }
    TasksKeep(codec, s, t);
  }

  lemma PendKeeps(codec: Codec, s: System, item: Publication)
    requires Good(codec, s) && PubOk(codec, s, item)
    ensures Good(codec, s.(c := s.c.(out := s.c.out.(pending := s.c.out.pending + [item]))))
  {
    assert OutOk(codec, s);
    OutKeeps(codec, s, s.c.out.(pending := s.c.out.pending + [item]));
  }

  lemma {:induction false} ItemsAt(es: seq<Entry>, i: nat)
    requires i < |es|
    ensures Items(es)[i] == es[i].item
  {
    if i > 0 { ItemsAt(es[1..], i - 1); }
  }

  lemma DisconnectKeeps(codec: Codec, s: System)
    requires Good(codec, s)
    ensures Good(codec, s.(c := Disconnect(s.c)))
  {
    var r := s.(c := Disconnect(s.c));
    var es := s.c.out.inflight;
    WiresSame(codec, s, r.c);
    BrokerSide(codec, s, r.c);
    TasksExtend(codec, s, r);
    forall i | 0 <= i < |r.c.out.pending| ensures PubOk(codec, r, r.c.out.pending[i]) {
      if i < |es| {
        ItemsAt(es, i);
        PubExtends(codec, s, r, es[i].item);
      } else {
        PubExtends(codec, s, r, s.c.out.pending[i - |es|]);
      }
    }
    assert forall g :: WireOf(r.c, g) == WireOf(s.c, g);
    assert forall g :: g in r.conns ==> ConnShape(s, g) && ConnShape(r, g);
  }

  lemma CompleteKeeps(codec: Codec, s: System, g: nat, t: nat, result: Disposition, body: string)
    requires Good(codec, s) && ClosureOk(codec, s, Complete(g, t, result, body))
    ensures Good(codec, s.(c := CompleteDelivery(s.c, codec, g, t, result, body)))
  {
    if g != s.c.link.generation || !s.c.link.channels || s.c.link.recovering {
      assert s.(c := s.c) == s;
    } else if result == Ack {
      SettleKeeps(codec, s, AckFrame(t));
    } else {
      var r := Replacement(codec, s.c.queueName, result, body);
      var x := Timer(true, r.delay, Publication(r.queue, r.body, Settles(g, t)));
      assert PubOk(codec, s, x.item);
      assert TasksOk(codec, s);
      TimersKeep(codec, s, s.c.tasks.timers + [x]);
    }
  }

  lemma RunKeeps(codec: Codec, s: System, room: nat, torn: bool)
    requires Good(codec, s) && s.c.tasks.loop != []
    ensures Good(codec, s.(c := RunClosure(s.c, codec, room, torn)))
  {
    assert ClosureOk(codec, s, s.c.tasks.loop[0]) by { assert TasksOk(codec, s); }
    hide Good;
    var x := s.c.tasks.loop[0];
    var s1 := s.(c := s.c.(tasks := s.c.tasks.(loop := s.c.tasks.loop[1..])));
    PopKeeps(codec, s);
    if s.c.link.alive {
      BrokerSide(codec, s, s1.c);
      ClosureExtends(codec, s, s1, x);
      match x
      case Enqueue(item) =>
        PendKeeps(codec, s1, item);
        DrainGood(codec, s1.(c := s1.c.(out := s1.c.out.(pending := s1.c.out.pending + [item]))), room, torn);
      case Complete(g, t, result, body) => CompleteKeeps(codec, s1, g, t, result, body);
      case Recover =>
        DisconnectKeeps(codec, s1);
        ScheduleKeeps(codec, s1.(c := Disconnect(s1.c)));
    }
  }

  lemma ScheduleKeeps(codec: Codec, s: System)
    requires Good(codec, s)
    ensures Good(codec, s.(c := ScheduleReconnect(s.c)))
  {
    if s.c.link.shuttingDown || s.c.link.reconnectScheduled {
      assert s.(c := s.c) == s;
    } else {
      LinkKeeps(codec, s, ScheduleReconnect(s.c).link);
    }
  }

  lemma StopKeeps(codec: Codec, s: System)
    requires Good(codec, s)
    ensures Good(codec, s.(c := Stop(s.c)))
  {
    DisconnectKeeps(codec, s);
    var s1 := s.(c := Disconnect(s.c));
    LinkKeeps(codec, s1, Stop(s.c).link);
    assert s1.c.(link := Stop(s.c).link) == Stop(s.c);
  }

  lemma ReconnectKeeps(codec: Codec, s: System, i: nat, built: bool)
    requires Good(codec, s) && Recovery(s.c, s.fires) && i < |s.c.link.reconnectTimers|
    ensures Good(codec, s.(c := FireReconnect(s.c, i, built)))
  {
    var ts := s.c.link.reconnectTimers[..i] + s.c.link.reconnectTimers[i + 1..];
    var l := s.c.link.(reconnectTimers := ts);
    if !s.c.link.alive {
      LinkKeeps(codec, s, l);
    } else {
      assert !s.c.link.channels && !s.c.link.shuttingDown;
      var l1 := l.(reconnectScheduled := false, reconnectDelay := DoubledDelay(l.reconnectDelay), recovering := false);
      if built {
        LinkKeeps(codec, s, l1.(connection := true));
      } else {
        LinkKeeps(codec, s, l1);
        FailedKeep(codec, s.(c := s.c.(link := l1)));
      }
    }
  }

  // ---- Events of the connection -------------------------------------------------------------------

  lemma EstablishedKeeps(codec: Codec, s: System)
    requires Good(codec, s) && Enabled(s, Established)
    ensures Good(codec, Apply(codec, s, Established))
  {
    var r := Apply(codec, s, Established);
    var now := s.c.link.generation;
    EstablishedWires(codec, s);
    assert Extends(s, r);
    OutExtends(codec, s, r);
    TasksExtend(codec, s, r);
    assert forall g :: g != now ==> WireOf(r.c, g) == WireOf(s.c, g);
    forall g | g in r.conns ensures ConnShape(r, g) { if g != now { assert ConnShape(s, g); } }
  }

  lemma EstablishedWires(codec: Codec, s: System)
    requires Good(codec, s) && Enabled(s, Established)
    ensures var r := Apply(codec, s, Established); Extends(s, r) && Routed(r) && Acks(codec, r) && Places(codec, r)
  {
    var r := Apply(codec, s, Established);
    var now := s.c.link.generation;
    forall g | g in s.conns ensures ConnShape(s, g) && g != now {}
    assert forall g :: g != now ==> WireOf(r.c, g) == WireOf(s.c, g);
    forall g, i | 0 <= i < |WireOf(r.c, g).settles| ensures AckOk(codec, r, g, WireOf(r.c, g).settles[i]) {
      AckExtends(codec, s, r, g, WireOf(s.c, g).settles[i]);
    }
    forall id | 0 <= id < |r.records| && r.records[id].place == Removed ensures Justified(codec, r, id) {
      GoneExtends(codec, s, r, id);
    }
    assert forall g, t :: g in s.conns && SettleTaken(s, g, t) ==> SettleTaken(r, g, t);
  }

  ghost function Read1(s: System): System
    requires Up(s)
  {
    var k := s.conns[s.c.link.generation];
    s.(conns := s.conns[s.c.link.generation := k.(read := k.read + 1)])
  }

  lemma ReadKeeps(codec: Codec, s: System)
    requires Good(codec, s) && Enabled(s, ReadNotice(0, false))
    requires var k := s.conns[s.c.link.generation];
      s.c.link.recovering || s.c.link.shuttingDown || k.notices[k.read].Confirmed?
    ensures Good(codec, Read1(s))
  {
    assert Honest(s) && ConnShape(s, s.c.link.generation);
    SameWires(codec, s, Read1(s));
    HonestRead(s);
  }

  lemma HonestRead(s: System)
    requires Honest(s) && Up(s) && s.conns[s.c.link.generation].read < |s.conns[s.c.link.generation].notices|
    requires var k := s.conns[s.c.link.generation];
      s.c.link.recovering || s.c.link.shuttingDown || k.notices[k.read].Confirmed?
    ensures Honest(Read1(s))
  {
    var now := s.c.link.generation;
    var r := Read1(s);
    forall g | g in r.conns ensures HonestConn(r.conns[g]) { assert HonestConn(s.conns[g]); }
  }

  lemma HonestSame(s: System, r: System)
    requires Honest(s) && r.c.link == s.c.link && r.conns.Keys == s.conns.Keys
    requires forall g :: g in s.conns ==>
      r.conns[g].notices == s.conns[g].notices && r.conns[g].outcomes == s.conns[g].outcomes && r.conns[g].read == s.conns[g].read
    ensures Honest(r)
  {
    forall g | g in r.conns ensures HonestConn(r.conns[g]) { assert HonestConn(s.conns[g]); }
  }

  lemma NewerSame(s: System, r: System)
    requires Newer(s) && Extends(s, r) && r.c.link == s.c.link && r.c.out == s.c.out && r.conns.Keys == s.conns.Keys
    requires forall g :: g in s.conns ==> r.conns[g].outcomes == s.conns[g].outcomes
    ensures Newer(r)
  {
    if s.c.link.channels && s.c.link.generation in s.conns {
      var os := s.conns[s.c.link.generation].outcomes;
      var es := s.c.out.inflight;
      forall i | 0 <= i < |es| && 1 <= es[i].tag <= |os| && os[es[i].tag - 1].Stored? && es[i].item.completion.Settles?
        ensures var k := es[i].item.completion;
          Delivered(r, k.generation, k.tag) && IdOf(r, k.generation, k.tag) < os[es[i].tag - 1].id
      {
        var k := es[i].item.completion;
        assert Delivered(s, k.generation, k.tag);
        assert r.conns[k.generation].deliveries[k.tag - 1] == s.conns[k.generation].deliveries[k.tag - 1];
      }
    }
  }

  /** A change of the broker's cursors and notices only. */
  ghost predicate CursorsMoved(s: System, r: System) {
    && r.c == s.c && r.records == s.records && r.handled == s.handled && r.conns.Keys == s.conns.Keys
    && forall g :: g in s.conns ==>
         var k, l := s.conns[g], r.conns[g];
         l.outcomes == k.outcomes && l.deliveries == k.deliveries && l.taken == k.taken && l.open == k.open
         && k.handed <= l.handed <= |l.deliveries| && l.read <= |l.notices|
  }

  lemma SameWires(codec: Codec, s: System, r: System)
    requires Good(codec, s) && CursorsMoved(s, r)
    ensures Extends(s, r) && Shape(r) && Aligned(r) && Newer(r) && OutOk(codec, r) && TasksOk(codec, r)
    ensures Routed(r) && Acks(codec, r) && Places(codec, r)
  {
    assert Extends(s, r);
    OutExtends(codec, s, r);
    TasksExtend(codec, s, r);
    AcksExtend(codec, s, r);
    NewerSame(s, r);
    forall g | g in r.conns ensures ConnShape(r, g) { assert ConnShape(s, g); }
    forall id | 0 <= id < |r.records| && r.records[id].place == Removed ensures Justified(codec, r, id) {
      GoneExtends(codec, s, r, id);
    }
    assert forall g, t :: g in s.conns && SettleTaken(s, g, t) ==> SettleTaken(r, g, t);
  }

  lemma NoticeKeeps(codec: Codec, s: System, room: nat, torn: bool)
    requires Good(codec, s) && Enabled(s, ReadNotice(room, torn))
    ensures Good(codec, Apply(codec, s, ReadNotice(room, torn)))
  {
    hide Good;
    var k := s.conns[s.c.link.generation];
    var n := k.notices[k.read];
    if s.c.link.recovering || s.c.link.shuttingDown {
      ReadKeeps(codec, s);
      assert ConnectionFailed(s.c) == s.c && OnNotice(s.c, n, room, torn) == s.c;
    } else if n.Confirmed? {
      ConfirmedKeeps(codec, s, room, torn);
    } else {
      FailedKeep(codec, s);
      var s1 := s.(c := ConnectionFailed(s.c));
      ReadKeeps(codec, s1);
      assert OnNotice(s.c, n, room, torn) == s1.c;
    }
  }

  lemma ConfirmedKeeps(codec: Codec, s: System, room: nat, torn: bool)
    requires Good(codec, s) && Enabled(s, ReadNotice(room, torn))
    requires !s.c.link.recovering && !s.c.link.shuttingDown
    requires var k := s.conns[s.c.link.generation]; k.notices[k.read].Confirmed?
    ensures Good(codec, Apply(codec, s, ReadNotice(room, torn)))
  {
    var k := s.conns[s.c.link.generation];
    var n := k.notices[k.read];
    ReadStored(codec, s);
    ConfirmedApply(codec, s, room, torn);
    hide Good, Apply, ConfirmLoop, DrainPending;
    ReadKeeps(codec, s);
    var s1 := Read1(s);
    HonestCovers(codec, s1, n.tag, n.multiple);
    ConfirmGood(codec, s1, 0, n.tag, n.multiple);
    DrainGood(codec, s1.(c := ConfirmLoop(s1.c, 0, n.tag, n.multiple)), room, torn);
  }

  /** A confirmation that is read before any return or refusal covers stored publishes. */
  lemma ReadStored(codec: Codec, s: System)
    requires Good(codec, s) && Enabled(s, ReadNotice(0, false)) && !s.c.link.recovering && !s.c.link.shuttingDown
    requires var k := s.conns[s.c.link.generation]; k.notices[k.read].Confirmed?
    ensures var k := s.conns[s.c.link.generation]; AllStored(k.outcomes, k.notices[k.read].tag)
  {
    var k := s.conns[s.c.link.generation];
    assert Honest(s) && HonestConn(k);
    hide Good;
  }

  lemma ConfirmedApply(codec: Codec, s: System, room: nat, torn: bool)
    requires Enabled(s, ReadNotice(room, torn)) && !s.c.link.recovering && !s.c.link.shuttingDown
    requires var k := s.conns[s.c.link.generation]; k.notices[k.read].Confirmed?
    ensures var k := s.conns[s.c.link.generation]; var n := k.notices[k.read]; var s1 := Read1(s);
      Apply(codec, s, ReadNotice(room, torn)) == s1.(c := DrainPending(ConfirmLoop(s1.c, 0, n.tag, n.multiple), room, torn))
  {
    hide ConfirmLoop, DrainPending;
  }

  lemma HandBooks(codec: Codec, s: System)
    requires Good(codec, s) && Enabled(s, HandDelivery)
    ensures var now := s.c.link.generation; var k := s.conns[now];
      Good(codec, s.(conns := s.conns[now := k.(handed := k.handed + 1)]))
  {
    var now := s.c.link.generation;
    var k := s.conns[now];
    var s1 := s.(conns := s.conns[now := k.(handed := k.handed + 1)]);
    Parts(codec, s);
    HandCursor(s);
    hide *;
    SameWires(codec, s, s1);
    HonestSame(s, s1);
    Whole(codec, s1);
  }

  lemma HandCursor(s: System)
    requires Shape(s) && Enabled(s, HandDelivery)
    ensures var now := s.c.link.generation; var k := s.conns[now];
      CursorsMoved(s, s.(conns := s.conns[now := k.(handed := k.handed + 1)]))
  {
    assert forall g :: g in s.conns ==> ConnShape(s, g);
  }

  lemma Parts(codec: Codec, s: System)
    requires Good(codec, s)
    ensures Shape(s) && Honest(s)
  {
    hide Shape, Aligned, Newer, OutOk, TasksOk, Routed, Honest, Acks, Places;
  }

  lemma Whole(codec: Codec, s: System)
    requires Shape(s) && Aligned(s) && Newer(s) && OutOk(codec, s) && TasksOk(codec, s)
    requires Routed(s) && Honest(s) && Acks(codec, s) && Places(codec, s)
    ensures Good(codec, s)
  {
    hide Shape, Aligned, Newer, OutOk, TasksOk, Routed, Honest, Acks, Places;
  }

  lemma HandKeeps(codec: Codec, s: System)
    requires Good(codec, s) && Enabled(s, HandDelivery)
    ensures Good(codec, Apply(codec, s, HandDelivery))
  {
    var now := s.c.link.generation;
    var k := s.conns[now];
    var s1 := s.(conns := s.conns[now := k.(handed := k.handed + 1)]);
    var ws := s.c.tasks.workers + [Worker(true, now, k.handed + 1, s.records[k.deliveries[k.handed]].body)];
    HandApply(codec, s);
    hide *;
    HandWorker(codec, s);
    HandBooks(codec, s);
    WorkersKeep(codec, s1, ws);
  }

  lemma HandApply(codec: Codec, s: System)
    requires Enabled(s, HandDelivery)
    ensures s.c.link.generation in s.conns && Up(s)
    ensures var now := s.c.link.generation; var k := s.conns[now];
      && k.handed < |k.deliveries| && k.deliveries[k.handed] < |s.records|
      && var s1 := s.(conns := s.conns[now := k.(handed := k.handed + 1)]);
         var ws := s.c.tasks.workers + [Worker(true, now, k.handed + 1, s.records[k.deliveries[k.handed]].body)];
         Apply(codec, s, HandDelivery) == s1.(c := s1.c.(tasks := s1.c.tasks.(workers := ws)))
  {
  }

  /** The new worker holds the text of a delivery that was handed out. */
  lemma HandWorker(codec: Codec, s: System)
    requires Good(codec, s) && Enabled(s, HandDelivery)
    ensures var now := s.c.link.generation; var k := s.conns[now];
      WorkerOk(s.(conns := s.conns[now := k.(handed := k.handed + 1)]),
               Worker(true, now, k.handed + 1, s.records[k.deliveries[k.handed]].body))
  {
    assert ConnShape(s, s.c.link.generation);
    hide Good;
  }

  lemma WorkersKeep(codec: Codec, s: System, ws: seq<Worker>)
    requires Good(codec, s)
    requires forall i :: 0 <= i < |ws| ==>
      (i < |s.c.tasks.workers| && (ws[i] == s.c.tasks.workers[i] || !ws[i].open)) || WorkerOk(s, ws[i])
    ensures Good(codec, s.(c := s.c.(tasks := s.c.tasks.(workers := ws))))
  {
    var t := s.c.tasks.(workers := ws);
    var r := s.(c := s.c.(tasks := t));
    TasksRest(codec, s, t);
    BrokerSide(codec, s, r.c);
    assert TasksOk(codec, s);
    forall i | 0 <= i < |ws| ensures WorkerOk(r, ws[i]) {
      if ws[i].open { KnownExtends(s, r, ws[i].generation, ws[i].tag); }
    }
    TasksKeep(codec, s, t);
  }

  lemma AnswerKeeps(codec: Codec, s: System, w: nat, result: Disposition)
    requires Good(codec, s) && w < |s.c.tasks.workers|
    ensures Good(codec, Apply(codec, s, WorkerAnswers(w, result)))
  {
    var k := s.c.tasks.workers[w];
    assert WorkerOk(s, k) by { assert TasksOk(codec, s); }
    var h := Answered(s, w, result);
    assert s.handled <= h;
    HandledKeeps(codec, s, h);
    if k.open { OpenAnswerKeeps(codec, s, w, result); }
  }

  lemma OpenAnswerKeeps(codec: Codec, s: System, w: nat, result: Disposition)
    requires w < |s.c.tasks.workers|
    requires Good(codec, s.(handled := Answered(s, w, result))) && Extends(s, s.(handled := Answered(s, w, result)))
    requires s.c.tasks.workers[w].open && WorkerOk(s, s.c.tasks.workers[w])
    ensures Good(codec, Apply(codec, s, WorkerAnswers(w, result)))
  {
    var k := s.c.tasks.workers[w];
    var s1 := s.(handled := Answered(s, w, result));
    var ws := s.c.tasks.workers[w := k.(open := false)];
    var s2 := s1.(c := s1.c.(tasks := s1.c.tasks.(workers := ws)));
    hide Good;
    WorkersKeep(codec, s1, ws);
    BrokerSide(codec, s1, s2.c);
    KnownExtends(s, s1, k.generation, k.tag);
    KnownExtends(s1, s2, k.generation, k.tag);
    QueueKeeps(codec, s2, Complete(k.generation, k.tag, result, k.body));
  }

  lemma HandledKeeps(codec: Codec, s: System, h: set<nat>)
    requires Good(codec, s) && s.handled <= h
    ensures Good(codec, s.(handled := h)) && Extends(s, s.(handled := h))
  {
    var r := s.(handled := h);
    assert Extends(s, r);
    OutExtends(codec, s, r);
    TasksExtend(codec, s, r);
    AcksExtend(codec, s, r);
    forall g | g in r.conns ensures ConnShape(r, g) { assert ConnShape(s, g); }
    forall id | 0 <= id < |r.records| && r.records[id].place == Removed ensures Justified(codec, r, id) {
      GoneExtends(codec, s, r, id);
    }
    assert forall g, t :: g in s.conns && SettleTaken(s, g, t) ==> SettleTaken(r, g, t);
    NewerSame(s, r);
    HonestSame(s, r);
  }
}
