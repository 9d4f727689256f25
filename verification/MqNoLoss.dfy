/** The main results about the queue protocol, for every run of client and broker. */
module MqNoLoss {
  import opened Counting
  import opened Json
  import opened MqClient
  import opened MqSystem
  import opened MqRecovery
  import opened MqTokens
  import opened MqCustody
  import opened MqCustodyClient
  import opened MqCustodySteps
  import opened MqCustodyBroker
  import opened MqCopies
  import W = MqWindow

  ghost predicate Inv(codec: Codec, s: System) {
    Good(codec, s) && Tokens(s) && Recovery(s.c, s.fires)
  }

  lemma GoodThread(codec: Codec, s: System, st: Step)
    requires Good(codec, s) && Recovery(s.c, s.fires) && Enabled(s, st)
    requires st.StartPublish? || st.Turn? || st.RunLoop? || st.TimerFires? || st.ReconnectFires? ||
             st.WorkerAnswers? || st.StopClient?
    ensures Good(codec, Apply(codec, s, st))
  {
    hide Good;
    match st
    case StartPublish(queue, body) =>
      var p := Publication(queue, body, NoCompletion);
      BeginKeeps(codec, s, p);
    case Turn(p, spurious) => MqCustodySteps.TurnKeeps(codec, s, p, spurious);
    case RunLoop(room, torn) => MqCustodySteps.RunKeeps(codec, s, room, torn);
    case TimerFires(i) => FireKeeps(codec, s, i);
    case ReconnectFires(i, built) =>
      MqCustodySteps.ReconnectKeeps(codec, s, i, built);
      FiresKeep(codec, s.(c := FireReconnect(s.c, i, built)), if s.c.link.alive then s.fires + 1 else s.fires);
    case WorkerAnswers(w, result) => AnswerKeeps(codec, s, w, result);
    case StopClient => StopKeeps(codec, s);
    case _ =>
  }

  lemma FiresKeep(codec: Codec, s: System, n: nat)
    requires Good(codec, s)
    ensures Good(codec, s.(fires := n))
  {
    var r := s.(fires := n);
    assert forall g :: g in s.conns ==> ConnShape(s, g);
    SameWires(codec, s, r);
    HonestSame(s, r);
  }

  lemma GoodEvent(codec: Codec, s: System, st: Step)
    requires Good(codec, s) && Enabled(s, st)
    requires st.Established? || st.SelectSucceeds? || st.Writable? || st.Fails? || st.ReadNotice? || st.HandDelivery?
    ensures Good(codec, Apply(codec, s, st))
  {
    assert Shape(s);
    hide Good;
    match st
    case Established => EstablishedKeeps(codec, s);
    case SelectSucceeds(room, torn) =>
      var l := s.c.link.(producerReady := true);
      LinkKeeps(codec, s, l);
      DrainGood(codec, s.(c := s.c.(link := l)), room, torn);
    case Writable(room, torn) => DrainGood(codec, s, room, torn);
    case Fails => FailedKeep(codec, s);
    case ReadNotice(room, torn) => MqCustodySteps.NoticeKeeps(codec, s, room, torn);
    case HandDelivery => HandKeeps(codec, s);
    case _ =>
  }

  lemma GoodBroker(codec: Codec, s: System, st: Step)
    requires Good(codec, s) && Tokens(s) && Enabled(s, st)
    requires st.TakePublish? || st.Answer? || st.Refuse? || st.Deliver? || st.TakeSettle? || st.Drop? || st.Foreign?
    ensures Good(codec, Apply(codec, s, st))
  {
    hide Good;
    match st
    case TakePublish(g, routable, refused) => RouteKeeps(codec, s, g, routable, refused);
    case Answer(g, tag, multiple) => NoticeAppended(codec, s, g, Confirmed(tag, multiple));
    case Refuse(g, tag, multiple) => NoticeAppended(codec, s, g, Refusal(tag, multiple));
    case Deliver(g, id) => DeliverKeeps(codec, s, g, id);
    case TakeSettle(g) => SettleNextKeeps(codec, s, g);
    case Drop(g) => DropKeeps(codec, s, g);
    case Foreign(queue, body) => ForeignKeeps(codec, s, queue, body);
    case _ =>
  }

  lemma InvStep(codec: Codec, s: System, st: Step)
    requires Inv(codec, s) && Enabled(s, st)
    ensures Inv(codec, Apply(codec, s, st))
  {
    hide Good, Tokens, Recovery;
    RecoveryStep(codec, s, st);
    TokensStep(codec, s, st);
    if st.StartPublish? || st.Turn? || st.RunLoop? || st.TimerFires? || st.ReconnectFires? ||
       st.WorkerAnswers? || st.StopClient? {
      GoodThread(codec, s, st);
    } else if st.Established? || st.SelectSucceeds? || st.Writable? || st.Fails? || st.ReadNotice? || st.HandDelivery? {
      GoodEvent(codec, s, st);
    } else {
      GoodBroker(codec, s, st);
    }
  }

  lemma InvInit(codec: Codec, s: System)
    requires Init(s)
    ensures Inv(codec, s)
  {
    CountAppend(IsRecover(), [], Recover);
    TokensInit(s);
  }

  lemma {:induction false} InvAlways(codec: Codec, s: System, steps: seq<Step>, r: System)
    requires Inv(codec, s) && Runs(codec, s, steps, r)
    ensures Inv(codec, r)
    decreases |steps|
  {
    hide Inv;
    if steps != [] {
      InvStep(codec, s, steps[0]);
      InvAlways(codec, Apply(codec, s, steps[0]), steps[1..], r);
    }
  }

  // ---- No message loss ------------------------------------------------------------------------------

  /** Message `id` is safe: the broker still has it, its handler answered Ack, or a stored copy that
      the client made of a delivery of it is safe. */
  ghost predicate Safe(codec: Codec, s: System, id: nat)
    requires id < |s.records|
    decreases |s.records| - id
  {
    || s.records[id].place != Removed
    || id in s.handled
    || exists j :: id < j < |s.records| && Copies(codec, s, id, j) && Safe(codec, s, j)
  }

  lemma {:induction false} GoodIsSafe(codec: Codec, s: System, id: nat)
    requires Places(codec, s) && id < |s.records|
    ensures Safe(codec, s, id)
    decreases |s.records| - id
  {
    if s.records[id].place == Removed && id !in s.handled {
      var g, t :| Settleable(codec, s, g, t) && IdOf(s, g, t) == id;
      var h, n :| OwnCopy(codec, s, g, t, h, n);
      assert Copies(codec, s, id, NumberAt(s, h, n));
      GoodIsSafe(codec, s, NumberAt(s, h, n));
    }
  }

  /** No message loss: in every state of every run, whatever connections fail, publishes are
      nacked, returned or rejected and timers go stale, every message the broker ever accepted is
      still there, was acknowledged by its handler, or lives on in a stored copy of its own. */
  lemma {:induction false} NoLoss(codec: Codec, s: System, steps: seq<Step>, r: System, id: nat)
    requires Init(s) && Runs(codec, s, steps, r) && id < |r.records|
    ensures Safe(codec, r, id)
  {
    InvInit(codec, s);
    InvAlways(codec, s, steps, r);
    GoodIsSafe(codec, r, id);
  }

  /** An acknowledgement is written only for a delivery whose handler said Ack or for which the
      broker has stored the publish that the client made for that very delivery. */
  lemma {:induction false} AcksJustified(codec: Codec, s: System, steps: seq<Step>, r: System, g: nat, i: nat)
    requires Init(s) && Runs(codec, s, steps, r)
    requires i < |WireOf(r.c, g).settles| && WireOf(r.c, g).settles[i].AckFrame?
    ensures Settleable(codec, r, g, WireOf(r.c, g).settles[i].tag)
  {
    InvInit(codec, s);
    InvAlways(codec, s, steps, r);
    assert AckOk(codec, r, g, WireOf(r.c, g).settles[i]);
  }

  /** The broker never meets an unknown delivery tag. */
  lemma {:induction false} TagsKnown(codec: Codec, s: System, steps: seq<Step>, r: System, g: nat)
    requires Init(s) && Runs(codec, s, steps, r) && Enabled(r, TakeSettle(g))
    ensures KnownTag(r, g)
  {
    InvInit(codec, s);
    InvAlways(codec, s, steps, r);
    NextSettleKnown(codec, r, g);
  }

  /** What a confirmation removes from the publication sequence, the broker has stored. */
  lemma {:induction false} ConfirmedAreStored(codec: Codec, s: System, steps: seq<Step>, r: System, st: Step, i: nat)
    requires Init(s) && Runs(codec, s, steps, r) && Enabled(r, st) && W.Confirms(r, st) && i < |r.c.out.inflight|
    requires var k := r.conns[r.c.link.generation]; var n := k.notices[k.read];
      Covers(n.tag, n.multiple, r.c.out.inflight[i].tag)
    ensures var k := r.conns[r.c.link.generation]; var e := r.c.out.inflight[i];
      && 1 <= e.tag <= |k.outcomes| && k.outcomes[e.tag - 1].Stored? && k.outcomes[e.tag - 1].id < |r.records|
      && r.records[k.outcomes[e.tag - 1].id].queue == e.item.queue
      && r.records[k.outcomes[e.tag - 1].id].body == e.item.body
  {
    InvInit(codec, s);
    InvAlways(codec, s, steps, r);
    StoredNow(codec, r, i);
  }

  lemma StoredNow(codec: Codec, r: System, i: nat)
    requires Good(codec, r) && Enabled(r, ReadNotice(0, false)) && i < |r.c.out.inflight|
    requires !r.c.link.recovering && !r.c.link.shuttingDown
    requires var k := r.conns[r.c.link.generation]; var n := k.notices[k.read];
      n.Confirmed? && Covers(n.tag, n.multiple, r.c.out.inflight[i].tag)
    ensures var k := r.conns[r.c.link.generation]; var e := r.c.out.inflight[i];
      && 1 <= e.tag <= |k.outcomes| && k.outcomes[e.tag - 1].Stored? && k.outcomes[e.tag - 1].id < |r.records|
      && r.records[k.outcomes[e.tag - 1].id].queue == e.item.queue
      && r.records[k.outcomes[e.tag - 1].id].body == e.item.body
  {
    var k := r.conns[r.c.link.generation];
    var n := k.notices[k.read];
    assert AllStored(k.outcomes, n.tag) by { assert Honest(r) && HonestConn(k); }
    HonestCovers(codec, r, n.tag, n.multiple);
    assert Routed(r) && Aligned(r);
  }
}
