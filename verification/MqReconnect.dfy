/** Every recovery leads to a new channel, and nothing is published on it before confirms are on. */
module MqReconnect {
  import opened Counting
  import opened Json
  import opened MqClient
  import opened MqSystem
  import opened MqRecovery
  import opened MqTokens
  import opened MqCustody
  import opened MqNoLoss
  import opened MqAnswers
  import opened MqFlow

  // ---- One channel, one generation ---------------------------------------------------------------------

  /** The present generation has a channel exactly while it is up, publishing is allowed on a channel only,
      and until it is allowed nothing has been published on it. */
  ghost predicate OneChannel(s: System) {
    && (s.c.link.channels <==> s.c.link.generation in s.conns)
    && (s.c.link.producerReady ==> s.c.link.channels)
    && (s.c.link.channels && !s.c.link.producerReady && !s.c.link.recovering ==> WireOf(s.c, s.c.link.generation).sent == [])
    && (s.c.link.alive && s.c.link.channels ==> s.c.link.connection)
    && forall g :: g in s.conns ==> g <= s.c.link.generation
  }

  /** A client transition on the same channel that publishes only when it may. */
  ghost predicate SameChannel(c: Client, d: Client) {
    && d.link.channels == c.link.channels && d.link.generation == c.link.generation && d.link.connection == c.link.connection
    && d.link.alive == c.link.alive && (d.link.producerReady ==> c.link.producerReady) && (c.link.recovering ==> d.link.recovering)
    && (!d.link.producerReady && !d.link.recovering ==> !c.link.producerReady && WireOf(d, c.link.generation).sent == WireOf(c, c.link.generation).sent)
  }

  lemma SameKeeps(s: System, r: System)
    requires OneChannel(s) && SameChannel(s.c, r.c) && r.conns.Keys == s.conns.Keys
    ensures OneChannel(r)
  {
  }

  lemma {:induction false} DrainChannel(c: Client, room: nat, torn: bool)
    requires c.link.producerReady
    ensures var d := DrainLoop(c, room, torn);
      && d.link.channels == c.link.channels && d.link.generation == c.link.generation && d.link.connection == c.link.connection
      && d.link.alive == c.link.alive && (c.link.recovering ==> d.link.recovering) && (d.link.producerReady || d.link.recovering)
    decreases |c.out.pending|
  {
    if c.out.pending != [] && |c.out.inflight| < MAX_INFLIGHT && room > 0 { DrainChannel(PublishFront(c), room - 1, torn); }
  }

  lemma DrainSame(c: Client, room: nat, torn: bool)
    ensures SameChannel(c, DrainPending(c, room, torn))
  {
    if c.link.producerReady { DrainChannel(c, room, torn); }
    hide DrainLoop;
  }

  lemma SameTwice(c: Client, d: Client, e: Client)
    requires SameChannel(c, d) && SameChannel(d, e)
    ensures SameChannel(c, e)
  {
  }

  lemma {:induction false} ConfirmSame(c: Client, i: nat, tag: nat, multiple: bool)
    requires i <= |c.out.inflight|
    ensures SameChannel(c, ConfirmLoop(c, i, tag, multiple))
    decreases |c.out.inflight| - i
  {
    if i < |c.out.inflight| {
      if Covers(tag, multiple, c.out.inflight[i].tag) {
        AtSame(c, i);
        ConfirmSame(ConfirmAt(c, i), i, tag, multiple);
        SameTwice(c, ConfirmAt(c, i), ConfirmLoop(c, i, tag, multiple));
      } else {
        ConfirmSame(c, i + 1, tag, multiple);
      }
    }
    hide SameChannel, ConfirmAt;
  }

  lemma AtSame(c: Client, i: nat)
    requires i < |c.out.inflight|
    ensures SameChannel(c, ConfirmAt(c, i)) && i <= |ConfirmAt(c, i).out.inflight|
  {
  }

  lemma NoticeSame(c: Client, n: Notice, room: nat, torn: bool)
    ensures SameChannel(c, OnNotice(c, n, room, torn))
  {
    if n.Confirmed? && !c.link.recovering && !c.link.shuttingDown {
      var d := ConfirmLoop(c, 0, n.tag, n.multiple);
      ConfirmSame(c, 0, n.tag, n.multiple);
      DrainSame(d, room, torn);
      SameTwice(c, d, DrainPending(d, room, torn));
      hide SameChannel, ConfirmLoop, DrainPending;
    }
    hide ConfirmLoop, DrainLoop;
  }

  lemma RunSame(codec: Codec, c: Client, room: nat, torn: bool)
    requires c.tasks.loop != [] && (!c.link.alive || !c.tasks.loop[0].Recover?)
    ensures SameChannel(c, RunClosure(c, codec, room, torn))
  {
    var c1 := c.(tasks := c.tasks.(loop := c.tasks.loop[1..]));
    if c.link.alive && c.tasks.loop[0].Enqueue? {
      var c2 := c1.(out := c1.out.(pending := c1.out.pending + [c.tasks.loop[0].item]));
      DrainSame(c2, room, torn);
      SameTwice(c, c2, DrainPending(c2, room, torn));
    }
    hide DrainPending, Replacement;
  }

  lemma CallsSame(codec: Codec, s: System, st: Step)
    requires Enabled(s, st)
    requires st.StartPublish? || st.Turn? || st.TimerFires? || st.WorkerAnswers? || st.Fails? || st.HandDelivery? || st.Writable?
    ensures SameChannel(s.c, Apply(codec, s, st).c) && Apply(codec, s, st).conns.Keys == s.conns.Keys
  {
    if st.Writable? { DrainSame(s.c, st.room, st.torn); }
    hide DrainLoop;
  }

  lemma NewGeneration(s: System, c: Client)
    requires OneChannel(s) && c.link.generation == s.c.link.generation + 1 && !c.link.channels && !c.link.producerReady
    ensures OneChannel(s.(c := c))
  {
  }

  lemma LeavesChannel(codec: Codec, s: System, st: Step)
    requires OneChannel(s) && Enabled(s, st)
    requires st.StopClient? || (st.RunLoop? && s.c.link.alive && s.c.tasks.loop[0].Recover?)
    ensures OneChannel(Apply(codec, s, st))
  {
    NewGeneration(s, Apply(codec, s, st).c);
    hide OneChannel;
  }

  lemma ConnectKeeps(codec: Codec, s: System, st: Step)
    requires OneChannel(s) && Recovery(s.c, s.fires) && Enabled(s, st) && (st.ReconnectFires? || st.Established?)
    ensures OneChannel(Apply(codec, s, st))
  {
  }

  lemma SelectKeeps(codec: Codec, s: System, st: Step)
    requires OneChannel(s) && Enabled(s, st) && st.SelectSucceeds?
    ensures OneChannel(Apply(codec, s, st))
  {
    var s1 := s.(c := s.c.(link := s.c.link.(producerReady := true)));
    assert OneChannel(s1);
    DrainSame(s1.c, st.room, st.torn);
    hide DrainPending, OneChannel;
    SameKeeps(s1, Apply(codec, s, st));
  }

  lemma ChannelStep(codec: Codec, s: System, st: Step)
    requires OneChannel(s) && Recovery(s.c, s.fires) && Enabled(s, st)
    ensures OneChannel(Apply(codec, s, st))
  {
    var r := Apply(codec, s, st);
    if st.StopClient? || (st.RunLoop? && s.c.link.alive && s.c.tasks.loop[0].Recover?) {
      LeavesChannel(codec, s, st);
    } else if st.RunLoop? {
      RunSame(codec, s.c, st.room, st.torn);
      hide OneChannel, SameChannel, RunClosure;
      SameKeeps(s, r);
    } else if st.ReconnectFires? || st.Established? {
      ConnectKeeps(codec, s, st);
    } else if st.SelectSucceeds? {
      SelectKeeps(codec, s, st);
    } else if st.ReadNotice? {
      var k := s.conns[s.c.link.generation];
      NoticeSame(s.c, k.notices[k.read], st.room, st.torn);
      hide OneChannel, SameChannel, OnNotice;
      SameKeeps(s, r);
    } else if st.StartPublish? || st.Turn? || st.TimerFires? || st.WorkerAnswers? || st.Fails? || st.HandDelivery? || st.Writable? {
      CallsSame(codec, s, st);
      hide OneChannel, SameChannel, Apply;
      SameKeeps(s, r);
    } else {
      BrokerChannel(codec, s, st);
    }
  }

  lemma BrokerChannel(codec: Codec, s: System, st: Step)
    requires OneChannel(s) && Enabled(s, st)
    requires st.TakePublish? || st.Answer? || st.Refuse? || st.Deliver? || st.TakeSettle? || st.Drop? || st.Foreign?
    ensures OneChannel(Apply(codec, s, st))
  {
    BrokerStepFrame(codec, s, st);
    BrokerKeys(codec, s, st);
    hide Apply, Enabled;
  }

  lemma BrokerKeys(codec: Codec, s: System, st: Step)
    requires Enabled(s, st)
    requires st.TakePublish? || st.Answer? || st.Refuse? || st.Deliver? || st.TakeSettle? || st.Drop? || st.Foreign?
    ensures Apply(codec, s, st).conns.Keys == s.conns.Keys
  {
    hide Requeue, KnownTag;
  }

  lemma {:induction false} ChannelAlways(codec: Codec, s: System, steps: seq<Step>, r: System)
    requires Inv(codec, s) && OneChannel(s) && Runs(codec, s, steps, r)
    ensures Inv(codec, r) && OneChannel(r)
    decreases |steps|
  {
    if steps != [] {
      assert Recovery(s.c, s.fires);
      hide Inv, Recovery, OneChannel, Apply, Enabled;
      ChannelStep(codec, s, steps[0]);
      InvStep(codec, s, steps[0]);
      ChannelAlways(codec, Apply(codec, s, steps[0]), steps[1..], r);
    }
  }

  /** In every reachable state: until publishing has been allowed on the present channel, nothing has been
      published on it; and it is never allowed where there is no channel. */
  lemma ReadyFirst(codec: Codec, s: System, steps: seq<Step>, r: System)
    requires Init(s) && Runs(codec, s, steps, r)
    ensures r.c.link.producerReady ==> r.c.link.channels
    ensures r.c.link.channels && !r.c.link.producerReady && !r.c.link.recovering ==> WireOf(r.c, r.c.link.generation).sent == []
  {
    InvInit(codec, s);
    assert OneChannel(s);
    hide Inv, Runs;
    ChannelAlways(codec, s, steps, r);
  }

  // ---- A failed connection is replaced -----------------------------------------------------------------------

  /** Wherever a run of a live client comes to its recovery: the recovery sets the one timer, the timer
      connects, the connection may be established on a channel of its own, and once publishing is allowed
      there everything that was in flight goes out again first, in order, before what was pending. */
  lemma Reconnects(codec: Codec, s: System, steps: seq<Step>, mid: System, room: nat)
    requires Init(s) && Runs(codec, s, steps, mid)
    requires mid.c.link.alive && mid.c.tasks.loop != [] && mid.c.tasks.loop[0] == Recover
    ensures Enabled(mid, RunLoop(0, false))
    ensures var s1 := Apply(codec, mid, RunLoop(0, false)); Enabled(s1, ReconnectFires(0, true))
    ensures var s2 := Apply(codec, Apply(codec, mid, RunLoop(0, false)), ReconnectFires(0, true)); Enabled(s2, Established)
    ensures var s3 := Apply(codec, Apply(codec, Apply(codec, mid, RunLoop(0, false)), ReconnectFires(0, true)), Established);
      && Enabled(s3, SelectSucceeds(room, false)) && Serving(s3.c) && !s3.c.link.shuttingDown && !s3.c.link.producerReady
      && s3.c.link.generation == mid.c.link.generation + 1 && s3.c.link.reconnectDelay == 5
      && s3.c.out.inflight == [] && s3.c.out.nextTag == 1 && WireOf(s3.c, s3.c.link.generation) == Wire([], [])
      && s3.c.out.pending == Items(mid.c.out.inflight) + mid.c.out.pending
      && Moved(s3.c.out, Apply(codec, s3, SelectSucceeds(room, false)).c.out, Least(room, Movable(s3.c.out)))
  {
    InvInit(codec, s);
    assert OneChannel(s);
    hide Inv, Runs, Init;
    ChannelAlways(codec, s, steps, mid);
    RecoverSets(codec, mid);
    var s1 := Apply(codec, mid, RunLoop(0, false));
    ConnectsAgain(codec, s1);
    var s3 := Apply(codec, Apply(codec, s1, ReconnectFires(0, true)), Established);
    hide *;
    Resumes(codec, s3, SelectSucceeds(room, false)) by { Selectable(s3, room); }
  }

  lemma Selectable(s: System, room: nat)
    requires s.c.link.channels
    ensures Enabled(s, SelectSucceeds(room, false))
  {
  }

  /** The recovery closure drops the channel and sets the one timer. */
  lemma RecoverSets(codec: Codec, s: System)
    requires Inv(codec, s) && OneChannel(s) && s.c.link.alive && s.c.tasks.loop != [] && s.c.tasks.loop[0] == Recover
    ensures var r := Apply(codec, s, RunLoop(0, false));
      && Enabled(s, RunLoop(0, false)) && r.conns == s.conns
      && r.c.link.alive && !r.c.link.shuttingDown && !r.c.link.channels && !r.c.link.producerReady
      && |r.c.link.reconnectTimers| == 1 && r.c.link.generation == s.c.link.generation + 1 && r.c.link.generation !in r.conns
      && r.c.out.inflight == [] && r.c.out.nextTag == 1 && r.c.out.pending == Items(s.c.out.inflight) + s.c.out.pending
  {
    assert Recovery(s.c, s.fires);
    RecoverCounted(s.c, s.fires);
    hide Inv, Recovery;
  }

  lemma RecoverCounted(c: Client, fires: nat)
    requires Recovery(c, fires) && c.link.alive && c.tasks.loop != [] && c.tasks.loop[0] == Recover
    ensures !c.link.shuttingDown && c.link.reconnectTimers == [] && !c.link.reconnectScheduled
  {
    CountAt(IsRecover(), c.tasks.loop, 0);
  }

  lemma ConnectsAgain(codec: Codec, s: System)
    requires s.c.link.alive && !s.c.link.shuttingDown && !s.c.link.channels && !s.c.link.producerReady
    requires |s.c.link.reconnectTimers| == 1 && s.c.link.generation !in s.conns
    ensures Enabled(s, ReconnectFires(0, true))
    ensures Enabled(Apply(codec, s, ReconnectFires(0, true)), Established)
    ensures var r := Apply(codec, Apply(codec, s, ReconnectFires(0, true)), Established);
      && r.c.link.channels && Serving(r.c) && !r.c.link.shuttingDown && !r.c.link.producerReady
      && r.c.link.generation == s.c.link.generation && r.c.link.reconnectDelay == 5
      && r.c.out == s.c.out && WireOf(r.c, r.c.link.generation) == Wire([], [])
  {
  }
}
