/** Each delivery is settled at most once, and only on its own connection.  The right to settle
    a delivery is a token that is created when the delivery is handed over and then only moves
    or disappears. */
module MqTokens {
  import opened Counting
  import opened Json
  import opened MqClient
  import opened MqSystem

  ghost function PubIs(k: Completion): Publication -> bool { (p: Publication) => p.completion == k }
  ghost function EntryIs(k: Completion): Entry -> bool { (e: Entry) => e.item.completion == k }
  ghost function TimerIs(k: Completion): Timer -> bool { (t: Timer) => t.armed && t.item.completion == k }
  ghost function WorkerIs(k: Completion): Worker -> bool {
    (w: Worker) => w.open && Settles(w.generation, w.tag) == k
  }
  ghost function ClosureIs(k: Completion): Closure -> bool {
    (x: Closure) => match x
                    case Enqueue(item) => item.completion == k
                    case Complete(g, t, _, _) => Settles(g, t) == k
                    case Recover => false
  }
  ghost function PublisherIs(k: Completion): Publisher -> bool {
    (x: Publisher) => !x.Done? && x.item.completion == k
  }
  ghost function SettleIs(t: nat): Settle -> bool { (f: Settle) => f.tag == t }

  ghost function OutTokens(o: Outbox, k: Completion): nat {
    Count(PubIs(k), o.pending) + Count(EntryIs(k), o.inflight)
  }

  ghost function TaskTokens(t: Tasks, k: Completion): nat {
    Count(ClosureIs(k), t.loop) + Count(TimerIs(k), t.timers) + Count(WorkerIs(k), t.workers) +
    Count(PublisherIs(k), t.publishers)
  }

  /** How often delivery `k` has been settled on its own connection. */
  ghost function Spent(c: Client, k: Completion): nat
    requires k.Settles?
  {
    Count(SettleIs(k.tag), WireOf(c, k.generation).settles)
  }

  /** Settlements of `k` made or still possible. */
  ghost function Total(c: Client, k: Completion): nat
    requires k.Settles?
  {
    OutTokens(c.out, k) + TaskTokens(c.tasks, k) + Spent(c, k)
  }

  ghost predicate Tokens(s: System) {
    forall k: Completion :: k.Settles? ==> Total(s.c, k) <= One(Delivered(s, k.generation, k.tag))
  }

  /** `k` is a delivery of the channel a live client is on. */
  ghost predicate Current(c: Client, k: Completion) {
    k.Settles? && c.link.alive && c.link.channels && k.generation == c.link.generation
  }

  // ---- Writing to the wire ------------------------------------------------------------------

  lemma SettleTotal(c: Client, f: Settle, k: Completion)
    requires k.Settles?
    ensures Total(WriteSettle(c, f), k) == Total(c, k) + One(k == Settles(c.link.generation, f.tag))
  {
    CountAppend(SettleIs(k.tag), WireOf(c, c.link.generation).settles, f);
  }

  lemma SentTotal(c: Client, p: Publication, k: Completion)
    requires k.Settles?
    ensures Total(WriteSent(c, p), k) == Total(c, k)
  {}

  lemma QueueTotal(c: Client, x: Closure, k: Completion)
    requires k.Settles?
    ensures Total(Queue(c, x), k) == Total(c, k) + One(ClosureIs(k)(x))
  {
    CountAppend(ClosureIs(k), c.tasks.loop, x);
  }

  /** Running the completion of a publication that has left every list spends its token. */
  lemma CompletionTotal(c: Client, j: Completion, ok: bool, k: Completion)
    requires k.Settles?
    ensures Total(RunCompletion(c, j, ok), k) <= Total(c, k) + One(j == k)
    ensures Current(c, k) ==> Total(RunCompletion(c, j, ok), k) == Total(c, k) + One(j == k)
    ensures RunCompletion(c, j, ok).link == c.link
  {
    if j.Settles? {
      SettleTotal(c, if ok then AckFrame(j.tag) else RejectFrame(j.tag), k);
    }
  }

  // ---- Client transitions -------------------------------------------------------------------

  lemma FailedTotal(c: Client, k: Completion)
    requires k.Settles?
    ensures Total(ConnectionFailed(c), k) == Total(c, k)
  {
    QueueTotal(c.(link := c.link.(recovering := true, producerReady := false)), Recover, k);
  }

  lemma FrontTotal(c: Client, k: Completion)
    requires k.Settles? && c.out.pending != []
    ensures Total(PublishFront(c), k) == Total(c, k)
  {
    var o := c.out;
    CountAppend(EntryIs(k), o.inflight, Entry(o.nextTag, o.pending[0]));
    SentTotal(c, o.pending[0], k);
  }

  lemma {:induction false} DrainTotal(c: Client, room: nat, torn: bool, k: Completion)
    requires k.Settles?
    ensures Total(DrainLoop(c, room, torn), k) == Total(c, k)
    decreases |c.out.pending|
  {
    if c.out.pending != [] && |c.out.inflight| < MAX_INFLIGHT {
      if room == 0 {
        SentTotal(c, c.out.pending[0], k);
        FailedTotal(if torn then WriteSent(c, c.out.pending[0]) else c, k);
      } else {
        FrontTotal(c, k);
        DrainTotal(PublishFront(c), room - 1, torn, k);
      }
    }
  }

  lemma DrainPendingTotal(c: Client, room: nat, torn: bool, k: Completion)
    requires k.Settles?
    ensures Total(DrainPending(c, room, torn), k) == Total(c, k)
  {
    DrainTotal(c, room, torn, k);
  }

  lemma ConfirmAtTotal(c: Client, i: nat, k: Completion)
    requires k.Settles? && i < |c.out.inflight|
    ensures Total(ConfirmAt(c, i), k) <= Total(c, k) && ConfirmAt(c, i).link == c.link
    ensures Current(c, k) ==> Total(ConfirmAt(c, i), k) == Total(c, k)
  {
    var o := c.out;
    CountRemove(EntryIs(k), o.inflight, i);
    var c1 := c.(out := o.(inflight := o.inflight[..i] + o.inflight[i + 1..], outstanding := o.outstanding - 1));
    CompletionTotal(c1, o.inflight[i].item.completion, true, k);
  }

  lemma {:induction false} ConfirmTotal(c: Client, i: nat, tag: nat, multiple: bool, k: Completion)
    requires k.Settles? && i <= |c.out.inflight|
    ensures Total(ConfirmLoop(c, i, tag, multiple), k) <= Total(c, k)
    ensures Current(c, k) ==> Total(ConfirmLoop(c, i, tag, multiple), k) == Total(c, k)
    decreases |c.out.inflight| - i
  {
    if i < |c.out.inflight| {
      if !Covers(tag, multiple, c.out.inflight[i].tag) {
        ConfirmTotal(c, i + 1, tag, multiple, k);
      } else {
        ConfirmAtTotal(c, i, k);
        ConfirmTotal(ConfirmAt(c, i), i, tag, multiple, k);
      }
    }
  }

  lemma NoticeTotal(c: Client, n: Notice, room: nat, torn: bool, k: Completion)
    requires k.Settles?
    ensures Total(OnNotice(c, n, room, torn), k) <= Total(c, k)
    ensures Current(c, k) ==> Total(OnNotice(c, n, room, torn), k) == Total(c, k)
  {
    FailedTotal(c, k);
    if n.Confirmed? {
      ConfirmTotal(c, 0, n.tag, n.multiple, k);
      DrainPendingTotal(ConfirmLoop(c, 0, n.tag, n.multiple), room, torn, k);
    }
  }

  lemma {:induction false} ItemTokens(es: seq<Entry>, k: Completion)
    ensures Count(PubIs(k), Items(es)) == Count(EntryIs(k), es)
  {
    if es != [] {
      ItemTokens(es[1..], k);
      CountConcat(PubIs(k), [es[0].item], Items(es[1..]));
    }
  }

  lemma DisconnectTotal(c: Client, k: Completion)
    requires k.Settles?
    ensures Total(Disconnect(c), k) == Total(c, k)
  {
    ItemTokens(c.out.inflight, k);
    CountConcat(PubIs(k), Items(c.out.inflight), c.out.pending);
  }

  lemma ReserveTotal(c: Client, p: nat, count: int, item: Publication, spurious: bool, k: Completion)
    requires k.Settles? && p < |c.tasks.publishers| && c.tasks.publishers[p] == Loaded(count, item)
    ensures Total(TryReserve(c, p, count, item, spurious), k) <= Total(c, k)
    ensures Current(c, k) ==> Total(TryReserve(c, p, count, item, spurious), k) == Total(c, k)
  {
    var ps := c.tasks.publishers;
    if count >= MAX_PENDING {
      CountUpdate(PublisherIs(k), ps, p, Done);
      CompletionTotal(SetPublisher(c, p, Done), item.completion, false, k);
    } else if count == c.out.outstanding && !spurious {
      CountUpdate(PublisherIs(k), ps, p, Reserved(item));
    } else {
      CountUpdate(PublisherIs(k), ps, p, Loaded(c.out.outstanding, item));
    }
  }

  lemma TurnTotal(c: Client, p: nat, spurious: bool, k: Completion)
    requires k.Settles? && p < |c.tasks.publishers|
    ensures Total(PublisherTurn(c, p, spurious), k) <= Total(c, k)
    ensures Current(c, k) ==> Total(PublisherTurn(c, p, spurious), k) == Total(c, k)
  {
    match c.tasks.publishers[p]
    case Loaded(count, item) => ReserveTotal(c, p, count, item, spurious, k);
    case Reserved(item) =>
      CountUpdate(PublisherIs(k), c.tasks.publishers, p, Done);
      QueueTotal(SetPublisher(c, p, Done), Enqueue(item), k);
    case Done =>
  }

  lemma BeginTotal(c: Client, item: Publication, k: Completion)
    requires k.Settles?
    ensures Total(BeginPublish(c, item), k) <= Total(c, k) + One(item.completion == k)
    ensures c.link.alive ==> Total(BeginPublish(c, item), k) == Total(c, k) + One(item.completion == k)
  {
    CountAppend(PublisherIs(k), c.tasks.publishers, Loaded(c.out.outstanding, item));
  }

  lemma FireTotal(c: Client, i: nat, k: Completion)
    requires k.Settles? && i < |c.tasks.timers| && c.tasks.timers[i].armed && c.tasks.timers[i].item.completion.Settles?
    ensures Total(FireTimer(c, i), k) <= Total(c, k)
    ensures Current(c, k) ==> Total(FireTimer(c, i), k) == Total(c, k)
  {
    var t := c.tasks.timers[i];
    CountUpdate(TimerIs(k), c.tasks.timers, i, t.(armed := false));
    BeginTotal(c.(tasks := c.tasks.(timers := c.tasks.timers[i := t.(armed := false)])), t.item, k);
  }

  lemma WorkerTotal(c: Client, w: nat, result: Disposition, k: Completion)
    requires k.Settles? && w < |c.tasks.workers|
    ensures Total(WorkerResult(c, w, result), k) == Total(c, k)
  {
    var x := c.tasks.workers[w];
    CountUpdate(WorkerIs(k), c.tasks.workers, w, x.(open := false));
    QueueTotal(c.(tasks := c.tasks.(workers := c.tasks.workers[w := x.(open := false)])),
               Complete(x.generation, x.tag, result, x.body), k);
  }

  lemma CompleteTotal(c: Client, codec: Codec, g: nat, tag: nat, result: Disposition, body: string, k: Completion)
    requires k.Settles?
    ensures Total(CompleteDelivery(c, codec, g, tag, result, body), k) <= Total(c, k) + One(Settles(g, tag) == k)
    ensures Current(c, k) && !c.link.recovering ==>
      Total(CompleteDelivery(c, codec, g, tag, result, body), k) == Total(c, k) + One(Settles(g, tag) == k)
  {
    SettleTotal(c, AckFrame(tag), k);
    var r := Replacement(codec, c.queueName, result, body);
    CountAppend(TimerIs(k), c.tasks.timers, Timer(true, r.delay, Publication(r.queue, r.body, Settles(g, tag))));
  }

  lemma RunTotal(c: Client, codec: Codec, room: nat, torn: bool, k: Completion)
    requires k.Settles? && c.tasks.loop != []
    ensures Total(RunClosure(c, codec, room, torn), k) <= Total(c, k)
    ensures Current(c, k) && !c.link.recovering ==> Total(RunClosure(c, codec, room, torn), k) == Total(c, k)
  {
    var c1 := c.(tasks := c.tasks.(loop := c.tasks.loop[1..]));
    assert Total(c1, k) + One(ClosureIs(k)(c.tasks.loop[0])) == Total(c, k);
    match c.tasks.loop[0]
    case Enqueue(item) =>
      var c2 := c1.(out := c1.out.(pending := c1.out.pending + [item]));
      CountAppend(PubIs(k), c1.out.pending, item);
      DrainPendingTotal(c2, room, torn, k);
    case Complete(g, tag, result, body) => CompleteTotal(c1, codec, g, tag, result, body, k);
    case Recover => DisconnectTotal(c1, k);
  }

  lemma ReconnectTotal(c: Client, i: nat, built: bool, k: Completion)
    requires k.Settles? && i < |c.link.reconnectTimers|
    ensures Total(FireReconnect(c, i, built), k) == Total(c, k)
  {
    var d := FireReconnect(c, i, built);
    var c1 := c.(link := d.link);
    LinkTotal(c, c1, k);
    if d.tasks != c1.tasks { QueueTotal(c1, Recover, k); }
    hide Total;
  }

  lemma LinkTotal(c: Client, d: Client, k: Completion)
    requires k.Settles? && d == c.(link := d.link)
    ensures Total(d, k) == Total(c, k)
  {
  }

  lemma HandTotal(c: Client, tag: nat, body: string, k: Completion)
    requires k.Settles?
    ensures Total(OnConsumerMessage(c, tag, body), k) == Total(c, k) + One(k == Settles(c.link.generation, tag))
  {
    CountAppend(WorkerIs(k), c.tasks.workers, Worker(true, c.link.generation, tag, body));
  }

  // ---- Steps --------------------------------------------------------------------------------

  lemma ThreadTotal(codec: Codec, s: System, st: Step, k: Completion)
    requires k.Settles? && Enabled(s, st)
    requires st.StartPublish? || st.Turn? || st.RunLoop? || st.TimerFires? || st.ReconnectFires? ||
             st.WorkerAnswers? || st.StopClient?
    ensures Total(Apply(codec, s, st).c, k) <= Total(s.c, k)
    ensures Current(s.c, k) && !s.c.link.recovering ==> Total(Apply(codec, s, st).c, k) == Total(s.c, k)
  {
    match st
    case StartPublish(queue, body) => BeginTotal(s.c, Publication(queue, body, NoCompletion), k);
    case Turn(p, spurious) => TurnTotal(s.c, p, spurious, k);
    case RunLoop(room, torn) => RunTotal(s.c, codec, room, torn, k);
    case TimerFires(i) => FireTotal(s.c, i, k);
    case ReconnectFires(i, built) => ReconnectTotal(s.c, i, built, k);
    case WorkerAnswers(w, result) => WorkerTotal(s.c, w, result, k);
    case StopClient => DisconnectTotal(s.c, k);
    case _ =>
  }

  lemma EventTotal(codec: Codec, s: System, st: Step, k: Completion)
    requires k.Settles? && Enabled(s, st)
    requires st.Established? || st.SelectSucceeds? || st.Writable? || st.Fails? || st.ReadNotice?
    ensures Total(Apply(codec, s, st).c, k) <= Total(s.c, k)
    ensures Current(s.c, k) && !s.c.link.recovering ==> Total(Apply(codec, s, st).c, k) == Total(s.c, k)
  {
    match st
    case SelectSucceeds(room, torn) => DrainPendingTotal(s.c.(link := s.c.link.(producerReady := true)), room, torn, k);
    case Writable(room, torn) => DrainPendingTotal(s.c, room, torn, k);
    case Fails => FailedTotal(s.c, k);
    case ReadNotice(room, torn) =>
      var x := s.conns[s.c.link.generation];
      NoticeTotal(s.c, x.notices[x.read], room, torn, k);
    case _ =>
  }

  /** Nothing a live client does or hears on its channel loses the right to settle a delivery of that
      channel, or spends it without writing a frame: only handing over a delivery changes the count. */
  lemma TotalKept(codec: Codec, s: System, st: Step, k: Completion)
    requires Enabled(s, st) && !st.HandDelivery? && Current(s.c, k) && !s.c.link.recovering
    ensures Total(Apply(codec, s, st).c, k) == Total(s.c, k)
  {
    if st.StartPublish? || st.Turn? || st.RunLoop? || st.TimerFires? || st.ReconnectFires? || st.WorkerAnswers? || st.StopClient? {
      ThreadTotal(codec, s, st, k);
    } else if st.Established? || st.SelectSucceeds? || st.Writable? || st.Fails? || st.ReadNotice? {
      EventTotal(codec, s, st, k);
    } else {
      BrokerStepFrame(codec, s, st);
    }
  }

  lemma DeliveredStays(codec: Codec, s: System, st: Step, g: nat, t: nat)
    requires Enabled(s, st) && Delivered(s, g, t)
    ensures Delivered(Apply(codec, s, st), g, t)
  {}

  lemma TokenStep(codec: Codec, s: System, st: Step, k: Completion)
    requires k.Settles? && Enabled(s, st) && Total(s.c, k) <= One(Delivered(s, k.generation, k.tag))
    ensures Total(Apply(codec, s, st).c, k) <= One(Delivered(Apply(codec, s, st), k.generation, k.tag))
  {
    if Delivered(s, k.generation, k.tag) { DeliveredStays(codec, s, st, k.generation, k.tag); }
    if st.HandDelivery? {
      var x := s.conns[s.c.link.generation];
      HandTotal(s.c, x.handed + 1, s.records[x.deliveries[x.handed]].body, k);
    } else if st.StartPublish? || st.Turn? || st.RunLoop? || st.TimerFires? || st.ReconnectFires? ||
              st.WorkerAnswers? || st.StopClient? {
      ThreadTotal(codec, s, st, k);
    } else if st.Established? || st.SelectSucceeds? || st.Writable? || st.Fails? || st.ReadNotice? {
      EventTotal(codec, s, st, k);
    } else {
      BrokerStepFrame(codec, s, st);
    }
  }

  lemma TokensStep(codec: Codec, s: System, st: Step)
    requires Tokens(s) && Enabled(s, st)
    ensures Tokens(Apply(codec, s, st))
  {
    forall k: Completion | k.Settles?
      ensures Total(Apply(codec, s, st).c, k) <= One(Delivered(Apply(codec, s, st), k.generation, k.tag))
    {
      TokenStep(codec, s, st, k);
    }
  }

  lemma TokensInit(s: System)
    requires Init(s)
    ensures Tokens(s)
  {
    forall k: Completion | k.Settles? ensures Total(s.c, k) == 0 { QueueTotal(Fresh(s.c.queueName), Recover, k); }
  }

  /** Whatever the workers, timers, resends and reconnects do, no delivery tag is settled twice
      on a connection, and every settled tag was delivered on that connection. */
  lemma SettledOnce(s: System, g: nat, i: nat, j: nat)
    requires Tokens(s) && i <= j < |WireOf(s.c, g).settles|
    ensures Delivered(s, g, WireOf(s.c, g).settles[i].tag)
    ensures i < j ==> WireOf(s.c, g).settles[i].tag != WireOf(s.c, g).settles[j].tag
  {
    var fs := WireOf(s.c, g).settles;
    var k := Settles(g, fs[i].tag);
    CountAt(SettleIs(k.tag), fs, i);
    assert Total(s.c, k) >= 1;
    if i < j && fs[i].tag == fs[j].tag {
      CountTwo(SettleIs(k.tag), fs, i, j);
    }
  }

  /** At-most-once settlement on every run. */
  lemma {:induction false} SettledOnceAlways(codec: Codec, s: System, steps: seq<Step>, r: System, g: nat, i: nat, j: nat)
    requires Init(s) && Runs(codec, s, steps, r) && i <= j < |WireOf(r.c, g).settles|
    ensures Delivered(r, g, WireOf(r.c, g).settles[i].tag)
    ensures i < j ==> WireOf(r.c, g).settles[i].tag != WireOf(r.c, g).settles[j].tag
  {
    TokensInit(s);
    TokensRun(codec, s, steps, r);
    SettledOnce(r, g, i, j);
  }

  lemma {:induction false} TokensRun(codec: Codec, s: System, steps: seq<Step>, r: System)
    requires Tokens(s) && Runs(codec, s, steps, r)
    ensures Tokens(r)
    decreases |steps|
  {
    if steps != [] {
      TokensStep(codec, s, steps[0]);
      TokensRun(codec, Apply(codec, s, steps[0]), steps[1..], r);
    }
  }
}
