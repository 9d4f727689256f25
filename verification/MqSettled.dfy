/** What the broker has forgotten is exactly what was acknowledged, for every run. */
module MqSettled {
  import opened Json
  import opened MqClient
  import opened MqSystem
  import opened MqCustody
  import opened MqCustodyBroker
  import opened MqTokens
  import opened MqRecovery
  import opened MqNoLoss
  import opened MqAnswers
  import W = MqWindow

  /** The broker has taken frame `i` of connection `g`, an acknowledgement of message `id`. */
  ghost predicate AckTaken(s: System, g: nat, i: nat, id: nat) {
    && g in s.conns && i < s.conns[g].taken && i < |WireOf(s.c, g).settles|
    && var f := WireOf(s.c, g).settles[i];
      f.AckFrame? && 1 <= f.tag <= |s.conns[g].deliveries| && s.conns[g].deliveries[f.tag - 1] == id
  }

  /** Every taken settle frame names a delivery, and a message is gone exactly if an acknowledgement
      of a delivery of it has been taken. */
  ghost predicate Gone(s: System) {
    && (forall g: nat, i: nat :: g in s.conns && i < s.conns[g].taken && i < |WireOf(s.c, g).settles| ==>
          1 <= WireOf(s.c, g).settles[i].tag <= |s.conns[g].deliveries|)
    && (forall g: nat, i: nat, id: nat :: AckTaken(s, g, i, id) ==> id < |s.records| && s.records[id].place == Removed)
    && (forall id: nat :: id < |s.records| && s.records[id].place == Removed ==> exists g: nat, i: nat :: AckTaken(s, g, i, id))
  }

  // ---- Wires and deliveries only grow ----------------------------------------------------------------------

  ghost predicate SettlesGrow(c: Client, d: Client) {
    forall g :: WireOf(c, g).settles <= WireOf(d, g).settles
  }

  lemma {:induction false} DrainSettles(c: Client, room: nat, torn: bool)
    ensures SettlesGrow(c, DrainLoop(c, room, torn))
    decreases |c.out.pending|
  {
    if c.out.pending != [] && |c.out.inflight| < MAX_INFLIGHT && room > 0 { DrainSettles(PublishFront(c), room - 1, torn); }
  }

  lemma {:induction false} ConfirmSettles(c: Client, i: nat, tag: nat, multiple: bool)
    requires i <= |c.out.inflight|
    ensures SettlesGrow(c, ConfirmLoop(c, i, tag, multiple))
    decreases |c.out.inflight| - i
  {
    if i < |c.out.inflight| {
      if Covers(tag, multiple, c.out.inflight[i].tag) {
        ConfirmSettles(ConfirmAt(c, i), i, tag, multiple);
      } else {
        ConfirmSettles(c, i + 1, tag, multiple);
      }
    }
  }

  lemma NoticeSettles(c: Client, n: Notice, room: nat, torn: bool)
    ensures SettlesGrow(c, OnNotice(c, n, room, torn))
  {
    if n.Confirmed? {
      ConfirmSettles(c, 0, n.tag, n.multiple);
      DrainSettles(ConfirmLoop(c, 0, n.tag, n.multiple), room, torn);
    }
    hide ConfirmLoop, DrainLoop;
  }

  lemma RunSettles(codec: Codec, c: Client, room: nat, torn: bool)
    requires c.tasks.loop != []
    ensures SettlesGrow(c, RunClosure(c, codec, room, torn))
  {
    var c1 := c.(tasks := c.tasks.(loop := c.tasks.loop[1..]));
    if c.tasks.loop[0].Enqueue? {
      DrainSettles(c1.(out := c1.out.(pending := c1.out.pending + [c.tasks.loop[0].item])), room, torn);
    }
    hide DrainLoop, Replacement;
  }

  /** A step adds settle frames at the end of a wire, if at all; only a new connection starts anew. */
  lemma StepSettles(codec: Codec, s: System, st: Step)
    requires Enabled(s, st)
    ensures forall g :: (st.Established? ==> g != s.c.link.generation) ==>
      WireOf(s.c, g).settles <= WireOf(Apply(codec, s, st).c, g).settles
  {
    match st
    case RunLoop(room, torn) => RunSettles(codec, s.c, room, torn);
    case SelectSucceeds(room, torn) =>
      DrainSettles(s.c.(link := s.c.link.(producerReady := true)), room, torn);
      hide DrainLoop;
    case Writable(room, torn) =>
      DrainSettles(s.c, room, torn);
      hide DrainLoop;
    case ReadNotice(room, torn) =>
      var k := s.conns[s.c.link.generation];
      NoticeSettles(s.c, k.notices[k.read], room, torn);
      hide OnNotice;
    case TakePublish(_, _, _) => BrokerStepFrame(codec, s, st); hide Apply;
    case Answer(_, _, _) => BrokerStepFrame(codec, s, st); hide Apply;
    case Refuse(_, _, _) => BrokerStepFrame(codec, s, st); hide Apply;
    case Deliver(_, _) => BrokerStepFrame(codec, s, st); hide Apply;
    case TakeSettle(_) => BrokerStepFrame(codec, s, st); hide Apply;
    case Drop(_) => BrokerStepFrame(codec, s, st); hide Apply;
    case Foreign(_, _) => BrokerStepFrame(codec, s, st); hide Apply;
    case _ => CallSettles(codec, s, st); hide Apply;
  }

  lemma CallSettles(codec: Codec, s: System, st: Step)
    requires Enabled(s, st)
    requires st.StartPublish? || st.Turn? || st.TimerFires? || st.ReconnectFires? || st.WorkerAnswers? || st.StopClient?
      || st.Established? || st.Fails? || st.HandDelivery?
    ensures forall g :: (st.Established? ==> g != s.c.link.generation) ==>
      WireOf(s.c, g).settles <= WireOf(Apply(codec, s, st).c, g).settles
  {
  }

  /** `l` keeps the deliveries of `k` and has taken the same settle frames. */
  ghost predicate KeepsBooks(k: Conn, l: Conn) { k.deliveries <= l.deliveries && l.taken == k.taken }

  lemma ConnsSame(codec: Codec, s: System, st: Step)
    requires Enabled(s, st)
    requires st.StartPublish? || st.Turn? || st.RunLoop? || st.TimerFires? || st.ReconnectFires? || st.WorkerAnswers? || st.StopClient?
      || st.SelectSucceeds? || st.Writable? || st.Fails? || st.Foreign?
    ensures Apply(codec, s, st).conns == s.conns
  {
    hide RunClosure, PublisherTurn, FireTimer, FireReconnect, DrainPending, WorkerResult, Stop, SelectOk, ConnectionFailed;
  }

  /** Deliveries are kept, and settle frames are taken in order and by TakeSettle alone. */
  lemma StepBooks(codec: Codec, s: System, st: Step)
    requires Enabled(s, st)
    ensures var r := Apply(codec, s, st);
      && (forall g :: g in s.conns ==> g in r.conns && s.conns[g].deliveries <= r.conns[g].deliveries)
      && (forall g :: g in s.conns && !st.TakeSettle? ==> r.conns[g].taken == s.conns[g].taken)
      && (forall g :: g in r.conns && g !in s.conns ==> st.Established? && r.conns[g].taken == 0)
  {
    if st.TakeSettle? {
      hide Requeue, KnownTag;
    } else if st.TakePublish? {
      RouteBooks(s, st.g, st.routable, st.refused);
      hide Route;
    } else if st.Established? || st.ReadNotice? || st.HandDelivery? || st.Answer? || st.Refuse? || st.Deliver? || st.Drop? {
      OneConn(codec, s, st);
      hide Apply;
    } else {
      ConnsSame(codec, s, st);
      hide Apply;
    }
  }

  lemma RouteBooks(s: System, g: nat, routable: bool, refused: bool)
    requires Enabled(s, TakePublish(g, routable, refused))
    ensures var r := Route(s, g, routable, refused);
      r.conns.Keys == s.conns.Keys && forall h :: h in s.conns ==> KeepsBooks(s.conns[h], r.conns[h])
  {
  }

  /** The steps that write to one connection. */
  lemma OneConn(codec: Codec, s: System, st: Step)
    requires Enabled(s, st)
    requires st.Established? || st.ReadNotice? || st.HandDelivery? || st.Answer? || st.Refuse? || st.Deliver? || st.Drop?
    ensures var r := Apply(codec, s, st);
      && (forall h :: h in s.conns ==> h in r.conns && KeepsBooks(s.conns[h], r.conns[h]))
      && (forall h :: h in r.conns && h !in s.conns ==> st.Established? && r.conns[h].taken == 0)
  {
    hide OnNotice, OnConsumerMessage, OnConnected, Requeue;
  }

  /** Only TakeSettle makes a message disappear, and nothing brings one back. */
  lemma StepPlaces(codec: Codec, s: System, st: Step)
    requires Enabled(s, st)
    ensures var r := Apply(codec, s, st);
      && |s.records| <= |r.records|
      && (forall id :: 0 <= id < |s.records| && s.records[id].place == Removed ==> r.records[id].place == Removed)
      && (!st.TakeSettle? ==>
            forall id :: 0 <= id < |r.records| && r.records[id].place == Removed ==> id < |s.records| && s.records[id].place == Removed)
  {
    hide RunClosure, PublisherTurn, FireTimer, FireReconnect, DrainPending, OnNotice, WorkerResult;
    match st
    case TakePublish(g, routable, refused) =>
    case TakeSettle(g) =>
    case _ =>
  }

  // ---- The invariant -----------------------------------------------------------------------------------------

  lemma OldAck(codec: Codec, s: System, st: Step, g: nat, i: nat, id: nat)
    requires Shape(s) && Enabled(s, st) && g in s.conns && i < s.conns[g].taken
    requires Gone(s)
    ensures AckTaken(Apply(codec, s, st), g, i, id) <==> AckTaken(s, g, i, id)
  {
    var r := Apply(codec, s, st);
    StepBooks(codec, s, st);
    StepSettles(codec, s, st);
    TakenStays(codec, s, st, g);
    assert ConnShape(s, g);
    hide Apply, Shape, Enabled;
    assert WireOf(s.c, g).settles[i] == WireOf(r.c, g).settles[i];
  }

  lemma TakenStays(codec: Codec, s: System, st: Step, g: nat)
    requires Enabled(s, st) && g in s.conns
    ensures g in Apply(codec, s, st).conns && s.conns[g].taken <= Apply(codec, s, st).conns[g].taken
    ensures st.Established? ==> g != s.c.link.generation
  {
    StepBooks(codec, s, st);
    if st.TakeSettle? { hide Requeue, KnownTag; }
  }

  lemma AcksSame(codec: Codec, s: System, st: Step)
    requires Shape(s) && Gone(s) && Enabled(s, st) && !st.TakeSettle?
    ensures forall g: nat, i: nat, id: nat :: AckTaken(Apply(codec, s, st), g, i, id) <==> AckTaken(s, g, i, id)
  {
    var r := Apply(codec, s, st);
    StepBooks(codec, s, st);
    hide Apply, Enabled, Shape, Gone;
    forall g: nat, i: nat, id: nat ensures AckTaken(r, g, i, id) <==> AckTaken(s, g, i, id) {
      if g in s.conns && i < s.conns[g].taken { OldAck(codec, s, st, g, i, id); }
    }
  }

  lemma FramesKnown(codec: Codec, s: System, st: Step)
    requires Shape(s) && Gone(s) && Enabled(s, st) && !st.TakeSettle?
    ensures var r := Apply(codec, s, st);
      forall g: nat, i: nat :: g in r.conns && i < r.conns[g].taken && i < |WireOf(r.c, g).settles| ==>
        1 <= WireOf(r.c, g).settles[i].tag <= |r.conns[g].deliveries|
  {
    var r := Apply(codec, s, st);
    StepBooks(codec, s, st);
    hide Apply, Enabled, Shape, Gone, WireOf;
    forall g: nat, i: nat | g in r.conns && i < r.conns[g].taken && i < |WireOf(r.c, g).settles|
      ensures 1 <= WireOf(r.c, g).settles[i].tag <= |r.conns[g].deliveries|
    {
      OtherFrame(codec, s, st, g, i);
    }
  }

  lemma GoneOther(codec: Codec, s: System, st: Step)
    requires Shape(s) && Gone(s) && Enabled(s, st) && !st.TakeSettle?
    ensures Gone(Apply(codec, s, st))
  {
    AcksSame(codec, s, st);
    FramesKnown(codec, s, st);
    StepPlaces(codec, s, st);
    hide Apply, Enabled, Shape, AckTaken;
  }

  lemma OtherFrame(codec: Codec, s: System, st: Step, g: nat, i: nat)
    requires Shape(s) && Gone(s) && Enabled(s, st) && g in s.conns && i < s.conns[g].taken
    ensures var r := Apply(codec, s, st);
      && g in r.conns && i < |WireOf(s.c, g).settles| <= |WireOf(r.c, g).settles|
      && 1 <= WireOf(r.c, g).settles[i].tag <= |r.conns[g].deliveries|
  {
    StepBooks(codec, s, st);
    StepSettles(codec, s, st);
    TakenStays(codec, s, st, g);
    assert ConnShape(s, g);
    hide Apply, Shape, Enabled;
  }

  /** What TakeSettle does when the frame names a delivery the broker holds. */
  lemma SettleEffect(codec: Codec, s: System, g: nat)
    requires Enabled(s, TakeSettle(g)) && KnownTag(s, g)
    ensures var r := Apply(codec, s, TakeSettle(g));
      var n := s.conns[g].taken; var f := WireOf(s.c, g).settles[n]; var id := s.conns[g].deliveries[f.tag - 1];
      && r.c == s.c && r.conns.Keys == s.conns.Keys && |r.records| == |s.records|
      && (forall h :: h in s.conns ==> r.conns[h].deliveries == s.conns[h].deliveries)
      && (forall h :: h in s.conns ==> r.conns[h].taken == if h == g then n + 1 else s.conns[h].taken)
      && 1 <= f.tag <= |s.conns[g].deliveries| && id < |s.records| && s.records[id].place != Removed
      && (forall j :: 0 <= j < |s.records| ==>
            (r.records[j].place == Removed <==> s.records[j].place == Removed || (f.AckFrame? && j == id)))
  {
  }

  lemma GoneSettle(codec: Codec, s: System, g: nat)
    requires Shape(s) && Gone(s) && Enabled(s, TakeSettle(g)) && KnownTag(s, g)
    ensures Gone(Apply(codec, s, TakeSettle(g)))
  {
    var r := Apply(codec, s, TakeSettle(g));
    var n := s.conns[g].taken;
    var f := WireOf(s.c, g).settles[n];
    SettleEffect(codec, s, g);
    hide Apply, KnownTag;
    forall h: nat, i: nat, id: nat
      ensures AckTaken(r, h, i, id) <==>
        AckTaken(s, h, i, id) || (h == g && i == n && f.AckFrame? && id == s.conns[g].deliveries[f.tag - 1])
    {}
    forall id: nat | id < |r.records| && r.records[id].place == Removed ensures exists h: nat, i: nat :: AckTaken(r, h, i, id) {
      if s.records[id].place == Removed {
        var h: nat, i: nat :| AckTaken(s, h, i, id);
        assert AckTaken(r, h, i, id);
      } else {
        assert AckTaken(r, g, n, id);
      }
    }
  }

  lemma GoneStep(codec: Codec, s: System, st: Step)
    requires Good(codec, s) && Tokens(s) && Gone(s) && Enabled(s, st)
    ensures Gone(Apply(codec, s, st))
  {
    assert Shape(s) by { GoodPlaces(codec, s); }
    hide *;
    if st.TakeSettle? {
      NextSettleKnown(codec, s, st.g);
      GoneSettle(codec, s, st.g);
    } else {
      GoneOther(codec, s, st);
    }
  }

  lemma {:induction false} GoneAlways(codec: Codec, s: System, steps: seq<Step>, r: System)
    requires Inv(codec, s) && Gone(s) && Runs(codec, s, steps, r)
    ensures Inv(codec, r) && Gone(r)
    decreases |steps|
  {
    if steps != [] {
      assert Good(codec, s) && Tokens(s);
      hide Inv, Good, Tokens, Gone, Apply, Enabled;
      GoneStep(codec, s, steps[0]);
      InvStep(codec, s, steps[0]);
      GoneAlways(codec, Apply(codec, s, steps[0]), steps[1..], r);
    }
  }

  /** In every reachable state a message is gone from the broker exactly if it has taken an
      acknowledgement of a delivery of that message. */
  lemma GoneExactly(codec: Codec, s: System, steps: seq<Step>, r: System, id: nat)
    requires Init(s) && Runs(codec, s, steps, r) && id < |r.records|
    ensures r.records[id].place == Removed <==> exists g: nat, i: nat :: AckTaken(r, g, i, id)
  {
    InvInit(codec, s);
    assert Gone(s);
    hide Inv, Runs;
    GoneAlways(codec, s, steps, r);
  }

  // ---- From the handler's Ack to the broker -------------------------------------------------------------------

  /** What a connection has delivered and been sent is kept over a run. */
  lemma {:induction false} RunGrows(codec: Codec, s: System, steps: seq<Step>, r: System, g: nat)
    requires Runs(codec, s, steps, r) && g in s.conns
    ensures g in r.conns && s.conns[g].deliveries <= r.conns[g].deliveries
    ensures WireOf(s.c, g).settles <= WireOf(r.c, g).settles
    decreases |steps|
  {
    hide Apply, Enabled, WireOf;
    if steps != [] {
      StepBooks(codec, s, steps[0]);
      StepSettles(codec, s, steps[0]);
      TakenStays(codec, s, steps[0], g);
      RunGrows(codec, Apply(codec, s, steps[0]), steps[1..], r, g);
    }
  }

  /** A handler's Ack takes effect: in every reachable state in which the loop comes to an Ack of the
      present channel, its frame is written, and once the broker has taken that frame the message is
      gone. */
  lemma AckTakesEffect(codec: Codec, s: System, steps: seq<Step>, mid: System, t: nat, body: string, room: nat, torn: bool,
                       more: seq<Step>, r: System)
    requires Init(s) && Runs(codec, s, steps, mid) && Serving(mid.c)
    requires mid.c.tasks.loop != [] && mid.c.tasks.loop[0] == Complete(mid.c.link.generation, t, Ack, body)
    requires Runs(codec, Apply(codec, mid, RunLoop(room, torn)), more, r)
    ensures var g := mid.c.link.generation; var n := |WireOf(mid.c, g).settles|;
      && Delivered(mid, g, t) && g in r.conns && n < |WireOf(r.c, g).settles| && WireOf(r.c, g).settles[n] == AckFrame(t)
      && IdOf(mid, g, t) < |r.records|
      && (r.conns[g].taken > n ==> r.records[IdOf(mid, g, t)].place == Removed)
  {
    InvInit(codec, s);
    assert Gone(s);
    hide Inv, Gone, Runs, Init;
    GoneAlways(codec, s, steps, mid);
    AckStep(codec, mid, t, body, room, torn);
    hide *;
    AckLater(codec, Apply(codec, mid, RunLoop(room, torn)), more, r, mid.c.link.generation,
             |WireOf(mid.c, mid.c.link.generation).settles|, t);
  }

  lemma AckStep(codec: Codec, s: System, t: nat, body: string, room: nat, torn: bool)
    requires Inv(codec, s) && Gone(s) && Serving(s.c)
    requires s.c.tasks.loop != [] && s.c.tasks.loop[0] == Complete(s.c.link.generation, t, Ack, body)
    ensures Enabled(s, RunLoop(room, torn))
    ensures var g, r := s.c.link.generation, Apply(codec, s, RunLoop(room, torn));
      && Inv(codec, r) && Gone(r) && Known(s, g, t) && Delivered(r, g, t) && IdOf(r, g, t) == IdOf(s, g, t)
      && WireOf(r.c, g).settles == WireOf(s.c, g).settles + [AckFrame(t)] && IdOf(r, g, t) < |r.records|
  {
    AckKnown(codec, s, t, body);
    AckWritten(codec, s, t, body, room, torn);
    var st := RunLoop(room, torn);
    assert Apply(codec, s, st).conns == s.conns && Apply(codec, s, st).records == s.records;
    hide *;
    InvStep(codec, s, st);
    GoneNext(codec, s, st);
    SameDelivery(s, Apply(codec, s, st), s.c.link.generation, t);
  }

  lemma SameDelivery(s: System, r: System, g: nat, t: nat)
    requires Known(s, g, t) && r.conns == s.conns && r.records == s.records
    ensures Delivered(r, g, t) && IdOf(r, g, t) == IdOf(s, g, t) < |r.records|
  {
  }

  lemma AckLater(codec: Codec, s: System, steps: seq<Step>, r: System, g: nat, n: nat, t: nat)
    requires Inv(codec, s) && Gone(s) && Runs(codec, s, steps, r) && Delivered(s, g, t) && IdOf(s, g, t) < |s.records|
    requires n < |WireOf(s.c, g).settles| && WireOf(s.c, g).settles[n] == AckFrame(t)
    ensures g in r.conns && n < |WireOf(r.c, g).settles| && WireOf(r.c, g).settles[n] == AckFrame(t)
    ensures IdOf(s, g, t) < |r.records|
    ensures r.conns[g].taken > n ==> r.records[IdOf(s, g, t)].place == Removed
  {
    hide Inv, Gone, Runs, WireOf;
    GoneAlways(codec, s, steps, r);
    RunGrows(codec, s, steps, r, g);
    RunRecords(codec, s, steps, r);
    if r.conns[g].taken > n { AckIsGone(r, g, n, IdOf(s, g, t)); }
  }

  lemma AckKnown(codec: Codec, s: System, t: nat, body: string)
    requires Inv(codec, s) && s.c.tasks.loop != [] && s.c.tasks.loop[0] == Complete(s.c.link.generation, t, Ack, body)
    ensures Known(s, s.c.link.generation, t)
  {
    assert TasksOk(codec, s);
    assert ClosureOk(codec, s, s.c.tasks.loop[0]);
    hide Inv;
  }

  lemma GoneNext(codec: Codec, s: System, st: Step)
    requires Inv(codec, s) && Gone(s) && Enabled(s, st)
    ensures Gone(Apply(codec, s, st))
  {
    assert Good(codec, s) && Tokens(s);
    hide *;
    GoneStep(codec, s, st);
  }

  lemma {:induction false} RunRecords(codec: Codec, s: System, steps: seq<Step>, r: System)
    requires Runs(codec, s, steps, r)
    ensures |s.records| <= |r.records|
    decreases |steps|
  {
    hide Apply, Enabled;
    if steps != [] {
      StepPlaces(codec, s, steps[0]);
      RunRecords(codec, Apply(codec, s, steps[0]), steps[1..], r);
    }
  }

  lemma AckIsGone(r: System, g: nat, n: nat, id: nat)
    requires Gone(r) && g in r.conns && n < r.conns[g].taken && n < |WireOf(r.c, g).settles|
    requires var f := WireOf(r.c, g).settles[n];
      f.AckFrame? && 1 <= f.tag <= |r.conns[g].deliveries| && r.conns[g].deliveries[f.tag - 1] == id
    ensures id < |r.records| && r.records[id].place == Removed
  {
    assert AckTaken(r, g, n, id);
  }
}
