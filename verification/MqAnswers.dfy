/** Every delivery is answered: the right to settle it is never lost on its channel, an Ack reaches
    the broker, and what the broker forgets is exactly what was acknowledged. */
module MqAnswers {
  import opened Counting
  import opened Json
  import opened MqClient
  import opened MqSystem
  import opened MqRecovery
  import opened MqTokens
  import opened MqCustody
  import opened MqNoLoss
  import W = MqWindow

  // ---- The right to settle is never lost -------------------------------------------------------------

  ghost predicate Serving(c: Client) { c.link.alive && c.link.channels && !c.link.recovering }

  /** Each delivery handed over on the present channel is settled once, or the right to settle it is
      held in exactly one place. */
  ghost predicate Answerable(s: System) {
    Serving(s.c) ==>
      forall t :: Delivered(s, s.c.link.generation, t) ==> Total(s.c, Settles(s.c.link.generation, t)) == 1
  }

  /** A client that serves a channel after a step has served it before, or the channel is new. */
  lemma ServedBefore(codec: Codec, s: System, st: Step)
    requires Good(codec, s) && Recovery(s.c, s.fires) && Enabled(s, st) && Serving(Apply(codec, s, st).c)
    ensures st.Established? || (Serving(s.c) && Apply(codec, s, st).c.link.generation == s.c.link.generation)
  {
    if !st.Established? { LinkStep(codec, s, st); }
  }

  /** What one step does to the link. */
  lemma LinkStep(codec: Codec, s: System, st: Step)
    requires Recovery(s.c, s.fires) && Enabled(s, st) && !st.Established?
    ensures var l, m := s.c.link, Apply(codec, s, st).c.link;
      && (m.channels ==> l.channels && m.generation == l.generation)
      && (m.alive ==> l.alive)
      && (m.alive && m.channels && !m.recovering ==> !l.recovering)
  {
    match st
    case RunLoop(room, torn) => RunLink(codec, s.c, room, torn);
    case SelectSucceeds(room, torn) => DrainLink(s.c.(link := s.c.link.(producerReady := true)), room, torn);
    case Writable(room, torn) => DrainLink(s.c, room, torn);
    case ReadNotice(room, torn) =>
      var k := s.conns[s.c.link.generation];
      NoticeLink(s.c, k.notices[k.read], room, torn);
    case _ => hide DrainLoop, ConfirmLoop;
  }

  ghost predicate LinkLasts(l: Link, m: Link) {
    m.channels == l.channels && m.generation == l.generation && m.alive == l.alive && (l.recovering ==> m.recovering)
  }

  lemma {:induction false} DrainLink(c: Client, room: nat, torn: bool)
    ensures LinkLasts(c.link, DrainLoop(c, room, torn).link)
    decreases |c.out.pending|
  {
    if c.out.pending != [] && |c.out.inflight| < MAX_INFLIGHT && room > 0 { DrainLink(PublishFront(c), room - 1, torn); }
  }

  lemma NoticeLink(c: Client, n: Notice, room: nat, torn: bool)
    ensures LinkLasts(c.link, OnNotice(c, n, room, torn).link)
  {
    if n.Confirmed? {
      W.ConfirmEffect(c, 0, n.tag, n.multiple);
      DrainLink(ConfirmLoop(c, 0, n.tag, n.multiple), room, torn);
    }
    hide ConfirmLoop, DrainLoop;
  }

  lemma RunLink(codec: Codec, c: Client, room: nat, torn: bool)
    requires c.tasks.loop != []
    ensures var l, m := c.link, RunClosure(c, codec, room, torn).link;
      && (m.channels ==> l.channels && m.generation == l.generation)
      && (m.alive ==> l.alive)
      && (m.alive && m.channels && !m.recovering ==> !l.recovering)
  {
    var c1 := c.(tasks := c.tasks.(loop := c.tasks.loop[1..]));
    if c.tasks.loop[0].Enqueue? {
      DrainLink(c1.(out := c1.out.(pending := c1.out.pending + [c.tasks.loop[0].item])), room, torn);
    }
    hide DrainLoop, Replacement;
  }

  lemma AnswerableStep(codec: Codec, s: System, st: Step)
    requires Good(codec, s) && Tokens(s) && Recovery(s.c, s.fires) && Answerable(s) && Enabled(s, st)
    ensures Answerable(Apply(codec, s, st))
  {
    var r := Apply(codec, s, st);
    if Serving(r.c) {
      ServedBefore(codec, s, st);
      if !st.Established? {
        forall t | Delivered(r, r.c.link.generation, t) ensures Total(r.c, Settles(r.c.link.generation, t)) == 1 {
          StepAnswers(codec, s, st, t);
        }
      }
    }
  }

  lemma StepAnswers(codec: Codec, s: System, st: Step, t: nat)
    requires Shape(s) && Tokens(s) && Answerable(s) && Enabled(s, st) && Serving(s.c) && !st.Established?
    requires Delivered(Apply(codec, s, st), s.c.link.generation, t)
    ensures Total(Apply(codec, s, st).c, Settles(s.c.link.generation, t)) == 1
  {
    var k := Settles(s.c.link.generation, t);
    NewlyHanded(codec, s, st, t);
    if st.HandDelivery? {
      var x := s.conns[s.c.link.generation];
      HandTotal(s.c, x.handed + 1, s.records[x.deliveries[x.handed]].body, k);
    } else {
      TotalKept(codec, s, st, k);
    }
    hide Total, Apply;
  }

  /** Deliveries are handed over by HandDelivery alone, one at a time. */
  lemma NewlyHanded(codec: Codec, s: System, st: Step, t: nat)
    requires Shape(s) && Enabled(s, st) && !st.Established? && Delivered(Apply(codec, s, st), s.c.link.generation, t)
    ensures Delivered(s, s.c.link.generation, t) || (st.HandDelivery? && t == s.conns[s.c.link.generation].handed + 1)
  {
    hide RunClosure, PublisherTurn, FireTimer, FireReconnect, DrainPending, OnNotice, WorkerResult;
    assert s.c.link.generation in s.conns ==> ConnShape(s, s.c.link.generation);
    match st
    case TakePublish(g, routable, refused) => hide Requeue, KnownTag;
    case TakeSettle(g) => hide Requeue;
    case _ =>
  }

  lemma {:induction false} AnswerableAlways(codec: Codec, s: System, steps: seq<Step>, r: System)
    requires Inv(codec, s) && Answerable(s) && Runs(codec, s, steps, r)
    ensures Inv(codec, r) && Answerable(r)
    decreases |steps|
  {
    if steps != [] {
      assert Good(codec, s) && Tokens(s) && Recovery(s.c, s.fires);
      hide Inv, Good, Tokens, Recovery, Answerable, Apply, Enabled;
      AnswerableStep(codec, s, steps[0]);
      InvStep(codec, s, steps[0]);
      AnswerableAlways(codec, Apply(codec, s, steps[0]), steps[1..], r);
    }
  }

  /** In every reachable state of a client that serves a channel, each delivery handed over on it is
      settled once or the right to settle it is held exactly once: by a worker that has not answered,
      or in the loop, a timer, a publisher, the pending or the in-flight publications. */
  lemma NoneForgotten(codec: Codec, s: System, steps: seq<Step>, r: System, t: nat)
    requires Init(s) && Runs(codec, s, steps, r) && Serving(r.c) && Delivered(r, r.c.link.generation, t)
    ensures Total(r.c, Settles(r.c.link.generation, t)) == 1
  {
    InvInit(codec, s);
    assert Answerable(s);
    hide Inv;
    AnswerableAlways(codec, s, steps, r);
  }

  // ---- What an answer does --------------------------------------------------------------------------------

  /** When the loop comes to an Ack of the present channel, the frame is written to that channel. */
  lemma AckWritten(codec: Codec, s: System, t: nat, body: string, room: nat, torn: bool)
    requires Serving(s.c) && s.c.tasks.loop != [] && s.c.tasks.loop[0] == Complete(s.c.link.generation, t, Ack, body)
    ensures Enabled(s, RunLoop(room, torn))
    ensures var r, g := Apply(codec, s, RunLoop(room, torn)), s.c.link.generation;
      && WireOf(r.c, g) == WireOf(s.c, g).(settles := WireOf(s.c, g).settles + [AckFrame(t)])
      && forall h :: h != g ==> WireOf(r.c, h) == WireOf(s.c, h)
  {
  }
}
