/** No message loss: the invariant that ties the client's books to the broker's. */
module MqCustody {
  import opened Counting
  import opened Json
  import opened MqClient
  import opened MqSystem
  import opened MqRecovery
  import opened MqTokens

  // ---- What a copy is -----------------------------------------------------------------------

  /** `queue, body` is what the client republishes for a delivery of `original`. */
  ghost predicate IsCopy(codec: Codec, name: string, original: string, queue: string, body: string) {
    || (var r := Replacement(codec, name, Retry, original); queue == r.queue && body == r.body)
    || (var r := Replacement(codec, name, Reject, original); queue == r.queue && body == r.body)
  }

  ghost predicate Known(s: System, g: nat, t: nat) {
    Delivered(s, g, t) && IdOf(s, g, t) < |s.records|
  }

  /** Message `j` is a later copy of message `id` that the broker has stored. */
  ghost predicate CopyOf(codec: Codec, s: System, id: nat, j: nat) {
    id < j < |s.records| && IsCopy(codec, s.c.queueName, s.records[id].body, s.records[j].queue, s.records[j].body)
  }

  /** Publish `n` on channel `h` was made for delivery `t` of connection `g`, and the broker has
      stored it as a later copy of that delivery. */
  ghost predicate OwnCopy(codec: Codec, s: System, g: nat, t: nat, h: nat, n: nat) {
    && Known(s, g, t) && h in s.conns && n < |s.conns[h].outcomes| && n < |WireOf(s.c, h).sent|
    && WireOf(s.c, h).sent[n].completion == Settles(g, t)
    && s.conns[h].outcomes[n].Stored? && CopyOf(codec, s, IdOf(s, g, t), s.conns[h].outcomes[n].id)
  }

  /** Why a delivery may be acknowledged: its handler said Ack, or its own copy is stored. */
  ghost predicate Settleable(codec: Codec, s: System, g: nat, t: nat) {
    Known(s, g, t) && (IdOf(s, g, t) in s.handled || exists h, n :: OwnCopy(codec, s, g, t, h, n))
  }

  /** Why the broker may forget message `id`: a delivery of it may be acknowledged. */
  ghost predicate Justified(codec: Codec, s: System, id: nat) {
    exists g, t :: Settleable(codec, s, g, t) && IdOf(s, g, t) == id
  }

  // ---- The invariant --------------------------------------------------------------------------

  ghost predicate ConnShape(s: System, g: nat)
    requires g in s.conns
  {
    var k := s.conns[g];
    && k.handed <= |k.deliveries| && k.read <= |k.notices|
    && |k.outcomes| <= |WireOf(s.c, g).sent| && k.taken <= |WireOf(s.c, g).settles|
    && (forall i :: 0 <= i < |k.deliveries| ==> k.deliveries[i] < |s.records|)
    && g <= s.c.link.generation
  }

  ghost predicate Shape(s: System) {
    && (forall g :: g in s.conns ==> ConnShape(s, g))
    && (s.c.link.channels ==> s.c.link.generation in s.conns)
    && (!s.c.link.channels ==> s.c.out.inflight == [] && s.c.out.nextTag == 1)
    && (s.c.link.shuttingDown ==> !s.c.link.connection && !s.c.link.channels)
  }

  /** The client's tags are the broker's numbers: entry `tag` is the `tag`-th publish written on
      the current channel, and the next tag follows the last one written. */
  ghost predicate Aligned(s: System) {
    s.c.link.channels ==>
      var sent := WireOf(s.c, s.c.link.generation).sent;
      var es := s.c.out.inflight;
      && 1 <= s.c.out.nextTag <= |sent| + 1
      && (!s.c.link.recovering ==> s.c.out.nextTag == |sent| + 1)
      && (forall i :: 0 <= i < |es| ==>
            1 <= es[i].tag < s.c.out.nextTag && sent[es[i].tag - 1] ==
              Outgoing(es[i].item.queue, es[i].item.body, es[i].item.completion))
      && (forall i, j :: 0 <= i < j < |es| ==> es[i].tag < es[j].tag)
  }

  /** What an in-flight copy was stored as came after the delivery it copies. */
  ghost predicate Newer(s: System) {
    s.c.link.channels && s.c.link.generation in s.conns ==>
      var os := s.conns[s.c.link.generation].outcomes;
      var es := s.c.out.inflight;
      forall i :: 0 <= i < |es| && 1 <= es[i].tag <= |os| && os[es[i].tag - 1].Stored? && es[i].item.completion.Settles? ==>
        var k := es[i].item.completion;
        Delivered(s, k.generation, k.tag) && IdOf(s, k.generation, k.tag) < os[es[i].tag - 1].id
  }

  ghost predicate PubOk(codec: Codec, s: System, p: Publication) {
    p.completion.Settles? ==>
      var g, t := p.completion.generation, p.completion.tag;
      Known(s, g, t) && IsCopy(codec, s.c.queueName, s.records[IdOf(s, g, t)].body, p.queue, p.body)
  }

  ghost predicate BodyOk(s: System, g: nat, t: nat, body: string) {
    Known(s, g, t) && body == s.records[IdOf(s, g, t)].body
  }

  ghost predicate ClosureOk(codec: Codec, s: System, x: Closure) {
    match x
    case Enqueue(item) => PubOk(codec, s, item)
    case Complete(g, t, result, body) => BodyOk(s, g, t, body) && (result == Ack ==> IdOf(s, g, t) in s.handled)
    case Recover => true
  }

  ghost predicate PublisherOk(codec: Codec, s: System, x: Publisher) { x.Done? || PubOk(codec, s, x.item) }

  ghost predicate WorkerOk(s: System, w: Worker) { w.open ==> BodyOk(s, w.generation, w.tag, w.body) }

  ghost predicate OutOk(codec: Codec, s: System) {
    && (forall i :: 0 <= i < |s.c.out.pending| ==> PubOk(codec, s, s.c.out.pending[i]))
    && (forall i :: 0 <= i < |s.c.out.inflight| ==> PubOk(codec, s, s.c.out.inflight[i].item))
  }

  ghost predicate TasksOk(codec: Codec, s: System) {
    var t := s.c.tasks;
    && (forall i :: 0 <= i < |t.loop| ==> ClosureOk(codec, s, t.loop[i]))
    && (forall i :: 0 <= i < |t.timers| ==> PubOk(codec, s, t.timers[i].item))
    && (forall i :: 0 <= i < |t.workers| ==> WorkerOk(s, t.workers[i]))
    && (forall i :: 0 <= i < |t.publishers| ==> PublisherOk(codec, s, t.publishers[i]))
  }

  /** A Stored outcome is the message that was sent. */
  ghost predicate Routed(s: System) {
    forall g, i :: g in s.conns && 0 <= i < |s.conns[g].outcomes| && s.conns[g].outcomes[i].Stored? ==>
      && i < |WireOf(s.c, g).sent| && s.conns[g].outcomes[i].id < |s.records|
      && var r := s.records[s.conns[g].outcomes[i].id]; WireOf(s.c, g).sent[i].queue == r.queue && WireOf(s.c, g).sent[i].body == r.body
  }

  ghost predicate Quiet(ns: seq<Notice>, n: nat)
    requires n <= |ns|
  {
    forall i :: 0 <= i < n ==> ns[i].Confirmed?
  }

  ghost predicate AllStored(os: seq<Outcome>, n: nat) {
    n <= |os| && forall i :: 0 <= i < n ==> os[i].Stored?
  }

  /** Until the broker has returned or refused something, a confirmation means stored. */
  ghost predicate HonestConn(k: Conn) {
    && (Quiet(k.notices, |k.notices|) ==> AllStored(k.outcomes, |k.outcomes|))
    && (forall i :: 0 <= i < |k.notices| && k.notices[i].Confirmed? && Quiet(k.notices, i) ==>
          AllStored(k.outcomes, k.notices[i].tag))
  }

  /** A client that acts on confirmations has seen no return and no refusal on this channel. */
  ghost predicate Honest(s: System) {
    && (forall g :: g in s.conns ==> HonestConn(s.conns[g]))
    && (s.c.link.channels && s.c.link.generation in s.conns && !s.c.link.recovering && !s.c.link.shuttingDown ==>
          var k := s.conns[s.c.link.generation]; k.read <= |k.notices| && Quiet(k.notices, k.read))
  }

  ghost predicate AckOk(codec: Codec, s: System, g: nat, f: Settle) {
    f.AckFrame? ==> Settleable(codec, s, g, f.tag)
  }

  /** Every acknowledgement on a wire is justified. */
  ghost predicate Acks(codec: Codec, s: System) {
    forall g, i :: 0 <= i < |WireOf(s.c, g).settles| ==> AckOk(codec, s, g, WireOf(s.c, g).settles[i])
  }

  ghost predicate SettleTaken(s: System, g: nat, t: nat)
    requires g in s.conns
  {
    exists j :: 0 <= j < s.conns[g].taken && j < |WireOf(s.c, g).settles| && WireOf(s.c, g).settles[j].tag == t
  }

  /** A delivery of an open connection is unacknowledged until its settle frame is processed,
      and only justified messages are gone. */
  ghost predicate Places(codec: Codec, s: System) {
    && (forall g, i :: Open(s, g) && 0 <= i < |s.conns[g].deliveries| && s.conns[g].deliveries[i] < |s.records| ==>
          s.records[s.conns[g].deliveries[i]].place == Unacked(g, i + 1) || SettleTaken(s, g, i + 1))
    && (forall id :: 0 <= id < |s.records| && s.records[id].place == Removed ==> Justified(codec, s, id))
  }

  ghost predicate Good(codec: Codec, s: System) {
    && Shape(s) && Aligned(s) && Newer(s) && OutOk(codec, s) && TasksOk(codec, s)
    && Routed(s) && Honest(s) && Acks(codec, s) && Places(codec, s)
  }

  // ---- Monotonicity ---------------------------------------------------------------------------

  /** Nothing recorded about deliveries, messages or handler answers is taken back. */
  ghost predicate Extends(s: System, r: System) {
    && r.c.queueName == s.c.queueName && s.handled <= r.handled
    && |s.records| <= |r.records|
    && (forall i :: 0 <= i < |s.records| ==> r.records[i].queue == s.records[i].queue && r.records[i].body == s.records[i].body)
    && (forall g :: g in s.conns ==>
          g in r.conns && s.conns[g].deliveries <= r.conns[g].deliveries && s.conns[g].handed <= r.conns[g].handed
          && (r.conns[g].handed <= |r.conns[g].deliveries|)
          && s.conns[g].outcomes <= r.conns[g].outcomes && WireOf(s.c, g).sent <= WireOf(r.c, g).sent)
  }

  lemma KnownExtends(s: System, r: System, g: nat, t: nat)
    requires Extends(s, r) && Known(s, g, t)
    ensures Known(r, g, t) && IdOf(r, g, t) == IdOf(s, g, t)
  {
    assert r.conns[g].deliveries[t - 1] == s.conns[g].deliveries[t - 1];
  }

  lemma PubExtends(codec: Codec, s: System, r: System, p: Publication)
    requires Extends(s, r) && PubOk(codec, s, p)
    ensures PubOk(codec, r, p)
  {
    if p.completion.Settles? { KnownExtends(s, r, p.completion.generation, p.completion.tag); }
  }

  lemma ClosureExtends(codec: Codec, s: System, r: System, x: Closure)
    requires Extends(s, r) && ClosureOk(codec, s, x)
    ensures ClosureOk(codec, r, x)
  {
    match x
    case Enqueue(item) => PubExtends(codec, s, r, item);
    case Complete(g, t, _, _) => KnownExtends(s, r, g, t);
    case Recover =>
  }

  lemma OwnCopyExtends(codec: Codec, s: System, r: System, g: nat, t: nat, h: nat, n: nat)
    requires Extends(s, r) && OwnCopy(codec, s, g, t, h, n)
    ensures OwnCopy(codec, r, g, t, h, n)
  {
    KnownExtends(s, r, g, t);
    assert r.conns[h].outcomes[n] == s.conns[h].outcomes[n] && WireOf(r.c, h).sent[n] == WireOf(s.c, h).sent[n];
  }

  lemma SettleableExtends(codec: Codec, s: System, r: System, g: nat, t: nat)
    requires Extends(s, r) && Settleable(codec, s, g, t)
    ensures Settleable(codec, r, g, t) && IdOf(r, g, t) == IdOf(s, g, t)
  {
    KnownExtends(s, r, g, t);
    if IdOf(s, g, t) !in s.handled {
      var h, n :| OwnCopy(codec, s, g, t, h, n);
      OwnCopyExtends(codec, s, r, g, t, h, n);
    }
  }

  lemma JustifiedExtends(codec: Codec, s: System, r: System, id: nat)
    requires Extends(s, r) && id < |s.records| && Justified(codec, s, id)
    ensures Justified(codec, r, id)
  {
    var g, t :| Settleable(codec, s, g, t) && IdOf(s, g, t) == id;
    SettleableExtends(codec, s, r, g, t);
  }

  lemma AckExtends(codec: Codec, s: System, r: System, g: nat, f: Settle)
    requires Extends(s, r) && AckOk(codec, s, g, f)
    ensures AckOk(codec, r, g, f)
  {
    if f.AckFrame? { SettleableExtends(codec, s, r, g, f.tag); }
  }

  lemma OutExtends(codec: Codec, s: System, r: System)
    requires Extends(s, r) && OutOk(codec, s) && r.c.out == s.c.out
    ensures OutOk(codec, r)
  {
    forall i | 0 <= i < |s.c.out.pending| ensures PubOk(codec, r, s.c.out.pending[i]) {
      PubExtends(codec, s, r, s.c.out.pending[i]);
    }
    forall i | 0 <= i < |s.c.out.inflight| ensures PubOk(codec, r, s.c.out.inflight[i].item) {
      PubExtends(codec, s, r, s.c.out.inflight[i].item);
    }
  }

  lemma TasksExtend(codec: Codec, s: System, r: System)
    requires Extends(s, r) && TasksOk(codec, s) && r.c.tasks == s.c.tasks
    ensures TasksOk(codec, r)
  {
    var t := s.c.tasks;
    forall i | 0 <= i < |t.loop| ensures ClosureOk(codec, r, t.loop[i]) { ClosureExtends(codec, s, r, t.loop[i]); }
    forall i | 0 <= i < |t.timers| ensures PubOk(codec, r, t.timers[i].item) { PubExtends(codec, s, r, t.timers[i].item); }
    forall i | 0 <= i < |t.workers| ensures WorkerOk(r, t.workers[i]) {
      assert WorkerOk(s, t.workers[i]);
      if t.workers[i].open { KnownExtends(s, r, t.workers[i].generation, t.workers[i].tag); }
    }
    forall i | 0 <= i < |t.publishers| ensures PublisherOk(codec, r, t.publishers[i]) {
      assert PublisherOk(codec, s, t.publishers[i]);
      if !t.publishers[i].Done? { PubExtends(codec, s, r, t.publishers[i].item); }
    }
  }

  lemma AcksExtend(codec: Codec, s: System, r: System)
    requires Extends(s, r) && Acks(codec, s) && r.c.wires == s.c.wires
    ensures Acks(codec, r)
  {
    forall g, i | 0 <= i < |WireOf(r.c, g).settles| ensures AckOk(codec, r, g, WireOf(r.c, g).settles[i]) {
      AckExtends(codec, s, r, g, WireOf(s.c, g).settles[i]);
    }
  }

  lemma GoneExtends(codec: Codec, s: System, r: System, id: nat)
    requires Extends(s, r) && Places(codec, s) && id < |s.records| && s.records[id].place == Removed
    ensures Justified(codec, r, id)
  {
    JustifiedExtends(codec, s, r, id);
  }
}
