/** Recovery and the publication window: client-side invariants of every run. */
module MqRecovery {
  import opened Counting
  import opened Json
  import opened MqClient
  import opened MqSystem

  // ---- Recovery -------------------------------------------------------------------------

  ghost function IsRecover(): Closure -> bool { (x: Closure) => x.Recover? }

  ghost function Doubled(k: nat): nat { if k == 0 then 5 else 2 * Doubled(k - 1) }

  /** The delay after `k` attempts since the last established connection. */
  ghost function Backoff(k: nat): nat { Min(60, Doubled(k)) }

  /** In a live client exactly one recovery action is outstanding while it recovers and none
      otherwise; a client that is not recovering has a connection whose loss it will hear of. */
  ghost predicate Recovery(c: Client, fires: nat) {
    && c.link.alive == !c.link.shuttingDown
    && (c.link.channels ==> c.link.connection)
    && (c.link.alive ==>
      && Count(IsRecover(), c.tasks.loop) + |c.link.reconnectTimers| == One(c.link.recovering)
      && c.link.reconnectScheduled == (|c.link.reconnectTimers| == 1)
      && (c.link.recovering || c.link.connection)
      && (c.link.reconnectScheduled ==> !c.link.connection && c.link.reconnectTimers[0] == c.link.reconnectDelay)
      && c.link.reconnectDelay == Backoff(fires))
  }

  lemma BackoffStep(k: nat)
    ensures Backoff(k + 1) == DoubledDelay(Backoff(k))
  {}

  lemma FailedKeeps(c: Client, fires: nat)
    requires Recovery(c, fires)
    ensures Recovery(ConnectionFailed(c), fires)
  {
    CountAppend(IsRecover(), c.tasks.loop, Recover);
  }

  lemma CompletionKeeps(c: Client, fires: nat, k: Completion, ok: bool)
    requires Recovery(c, fires)
    ensures Recovery(RunCompletion(c, k, ok), fires)
  {}

  lemma {:induction false} DrainLoopKeeps(c: Client, fires: nat, room: nat, torn: bool)
    requires Recovery(c, fires)
    ensures Recovery(DrainLoop(c, room, torn), fires)
    decreases |c.out.pending|
  {
    if c.out.pending != [] && |c.out.inflight| < MAX_INFLIGHT {
      if room == 0 {
        FailedKeeps(if torn then WriteSent(c, c.out.pending[0]) else c, fires);
      } else {
        DrainLoopKeeps(PublishFront(c), fires, room - 1, torn);
      }
    }
  }

  lemma {:induction false} ConfirmLoopKeeps(c: Client, fires: nat, i: nat, tag: nat, multiple: bool)
    requires i <= |c.out.inflight| && Recovery(c, fires)
    ensures Recovery(ConfirmLoop(c, i, tag, multiple), fires)
    decreases |c.out.inflight| - i
  {
    if i < |c.out.inflight| {
      if !Covers(tag, multiple, c.out.inflight[i].tag) {
        ConfirmLoopKeeps(c, fires, i + 1, tag, multiple);
      } else {
        ConfirmLoopKeeps(ConfirmAt(c, i), fires, i, tag, multiple);
      }
    }
  }

  lemma NoticeKeeps(c: Client, fires: nat, n: Notice, room: nat, torn: bool)
    requires Recovery(c, fires)
    ensures Recovery(OnNotice(c, n, room, torn), fires)
  {
    FailedKeeps(c, fires);
    if n.Confirmed? && !c.link.recovering && !c.link.shuttingDown {
      ConfirmLoopKeeps(c, fires, 0, n.tag, n.multiple);
      DrainLoopKeeps(ConfirmLoop(c, 0, n.tag, n.multiple), fires, room, torn);
    }
  }

  lemma RunKeeps(codec: Codec, c: Client, fires: nat, room: nat, torn: bool)
    requires Recovery(c, fires) && c.tasks.loop != []
    ensures Recovery(RunClosure(c, codec, room, torn), fires)
  {
    var c1 := c.(tasks := c.tasks.(loop := c.tasks.loop[1..]));
    if c.link.alive && c.tasks.loop[0].Enqueue? {
      DrainLoopKeeps(c1.(out := c1.out.(pending := c1.out.pending + [c.tasks.loop[0].item])), fires, room, torn);
    }
  }

  lemma ReconnectKeeps(c: Client, fires: nat, i: nat, built: bool)
    requires Recovery(c, fires) && i < |c.link.reconnectTimers|
    ensures Recovery(FireReconnect(c, i, built), if c.link.alive then fires + 1 else fires)
  {
    BackoffStep(fires);
    CountAppend(IsRecover(), c.tasks.loop, Recover);
  }

  lemma TurnKeeps(c: Client, fires: nat, p: nat, spurious: bool)
    requires Recovery(c, fires) && p < |c.tasks.publishers|
    ensures Recovery(PublisherTurn(c, p, spurious), fires)
  {
    match c.tasks.publishers[p]
    case Loaded(_, item) => CompletionKeeps(SetPublisher(c, p, Done), fires, item.completion, false);
    case Reserved(item) => CountAppend(IsRecover(), c.tasks.loop, Enqueue(item));
    case Done =>
  }

  lemma WorkerKeeps(c: Client, fires: nat, w: nat, result: Disposition)
    requires Recovery(c, fires) && w < |c.tasks.workers|
    ensures Recovery(WorkerResult(c, w, result), fires)
  {
    var k := c.tasks.workers[w];
    CountAppend(IsRecover(), c.tasks.loop, Complete(k.generation, k.tag, result, k.body));
  }

  lemma ThreadStepKeeps(codec: Codec, s: System, st: Step)
    requires Recovery(s.c, s.fires) && Enabled(s, st)
    requires st.StartPublish? || st.Turn? || st.RunLoop? || st.TimerFires? || st.ReconnectFires? ||
             st.WorkerAnswers? || st.StopClient?
    ensures Recovery(Apply(codec, s, st).c, Apply(codec, s, st).fires)
  {
    match st
    case Turn(p, spurious) => TurnKeeps(s.c, s.fires, p, spurious);
    case RunLoop(room, torn) => RunKeeps(codec, s.c, s.fires, room, torn);
    case ReconnectFires(i, built) => ReconnectKeeps(s.c, s.fires, i, built);
    case WorkerAnswers(w, result) => WorkerKeeps(s.c, s.fires, w, result);
    case _ =>
  }

  lemma EventStepKeeps(codec: Codec, s: System, st: Step)
    requires Recovery(s.c, s.fires) && Enabled(s, st)
    requires st.Established? || st.SelectSucceeds? || st.Writable? || st.Fails? || st.ReadNotice? || st.HandDelivery?
    ensures Recovery(Apply(codec, s, st).c, Apply(codec, s, st).fires)
  {
    match st
    case SelectSucceeds(room, torn) => DrainLoopKeeps(s.c.(link := s.c.link.(producerReady := true)), s.fires, room, torn);
    case Writable(room, torn) => DrainLoopKeeps(s.c, s.fires, room, torn);
    case Fails => FailedKeeps(s.c, s.fires);
    case ReadNotice(room, torn) =>
      var k := s.conns[s.c.link.generation];
      NoticeKeeps(s.c, s.fires, k.notices[k.read], room, torn);
    case _ =>
  }

  lemma RecoveryStep(codec: Codec, s: System, st: Step)
    requires Recovery(s.c, s.fires) && Enabled(s, st)
    ensures Recovery(Apply(codec, s, st).c, Apply(codec, s, st).fires)
  {
    if st.StartPublish? || st.Turn? || st.RunLoop? || st.TimerFires? || st.ReconnectFires? ||
       st.WorkerAnswers? || st.StopClient? {
      ThreadStepKeeps(codec, s, st);
    } else if st.Established? || st.SelectSucceeds? || st.Writable? || st.Fails? || st.ReadNotice? || st.HandDelivery? {
      EventStepKeeps(codec, s, st);
    } else {
      BrokerStepFrame(codec, s, st);
    }
  }

  /** In every reachable state the recovery machinery is neither stuck nor doubled. */
  lemma {:induction false} RecoveryAlways(codec: Codec, s: System, steps: seq<Step>, r: System)
    requires Init(s) && Runs(codec, s, steps, r)
    ensures Recovery(r.c, r.fires)
  {
    CountAppend(IsRecover(), [], Recover);
    RecoveryRun(codec, s, steps, r);
  }

  lemma {:induction false} RecoveryRun(codec: Codec, s: System, steps: seq<Step>, r: System)
    requires Recovery(s.c, s.fires) && Runs(codec, s, steps, r)
    ensures Recovery(r.c, r.fires)
    decreases |steps|
  {
    hide Recovery;
    if steps != [] {
      RecoveryStep(codec, s, steps[0]);
      RecoveryRun(codec, Apply(codec, s, steps[0]), steps[1..], r);
    }
  }
}
