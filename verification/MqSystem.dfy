/** The client of MqClient together with a broker that follows AMQP 0-9-1 class basic and
    RabbitMQ publisher confirms, as one step system. */
module MqSystem {
  import opened Json
  import opened MqClient

  // ---- Broker ---------------------------------------------------------------------------

  datatype Place = Ready | Unacked(conn: nat, tag: nat) | Removed

  /** A message the broker has accepted; its index in `records` is its identity. */
  datatype Record = Record(queue: string, body: string, place: Place)

  datatype Notice = Returned | Confirmed(tag: nat, multiple: bool) | Refusal(tag: nat, multiple: bool)
  datatype Outcome = Stored(id: nat) | Unroutable | Refused

  /** The broker's side of one connection.  The first `|outcomes|` publishes of its wire have
      been numbered and routed, the first `taken` settle frames processed; `read` notices and
      `handed` deliveries have reached the client. */
  datatype Conn = Conn(
    open: bool,
    outcomes: seq<Outcome>,
    notices: seq<Notice>,
    read: nat,
    deliveries: seq<nat>,
    handed: nat,
    taken: nat)

  /** `handled` and `fires` only record history: ids whose handler answered Ack, and reconnect
      attempts since the last established connection. */
  datatype System = System(c: Client, records: seq<Record>, conns: map<nat, Conn>, handled: set<nat>, fires: nat)

  ghost predicate Init(s: System) {
    && (exists built :: s.c == Connect(Fresh(s.c.queueName), built))
    && (forall i :: 0 <= i < |s.records| ==> s.records[i].place == Ready)
    && s.conns == map[] && s.handled == {} && s.fires == 0
  }

  /** Delivery `t` of connection `g` has been handed to the client. */
  predicate Delivered(s: System, g: nat, t: nat) {
    g in s.conns && 1 <= t <= s.conns[g].handed <= |s.conns[g].deliveries|
  }

  function IdOf(s: System, g: nat, t: nat): nat
    requires Delivered(s, g, t)
  {
    s.conns[g].deliveries[t - 1]
  }

  function Requeue(rs: seq<Record>, g: nat): (r: seq<Record>)
    ensures |r| == |rs|
    ensures forall i :: 0 <= i < |rs| ==>
      r[i] == if rs[i].place.Unacked? && rs[i].place.conn == g then rs[i].(place := Ready) else rs[i]
  {
    seq(|rs|, i requires 0 <= i < |rs| =>
      if rs[i].place.Unacked? && rs[i].place.conn == g then rs[i].(place := Ready) else rs[i])
  }

  // ---- Steps ----------------------------------------------------------------------------

  datatype Step =
    // the client's threads and event loop
    | StartPublish(queue: string, body: string)
    | Turn(p: nat, spurious: bool)
    | RunLoop(room: nat, torn: bool)
    | TimerFires(i: nat)
    | ReconnectFires(i: nat, built: bool)
    | WorkerAnswers(w: nat, result: Disposition)
    | StopClient
    // events of the current connection
    | Established
    | SelectSucceeds(room: nat, torn: bool)
    | Writable(room: nat, torn: bool)
    | Fails
    | ReadNotice(room: nat, torn: bool)
    | HandDelivery
    // the broker
    | TakePublish(g: nat, routable: bool, refused: bool)
    | Answer(g: nat, tag: nat, multiple: bool)
    | Refuse(g: nat, tag: nat, multiple: bool)
    | Deliver(g: nat, id: nat)
    | TakeSettle(g: nat)
    | Drop(g: nat)
    | Foreign(queue: string, body: string)

  predicate Open(s: System, g: nat) { g in s.conns && s.conns[g].open }

  predicate Up(s: System) { s.c.link.channels && s.c.link.generation in s.conns }

  /** The broker may confirm a publish it has routed, whatever the outcome was: the ack of an
      unroutable message follows its return, and a refused one has been nacked. */
  predicate Enabled(s: System, st: Step) {
    match st
    case StartPublish(_, _) => true
    case Turn(p, _) => p < |s.c.tasks.publishers|
    case RunLoop(_, _) => s.c.tasks.loop != []
    case TimerFires(i) => i < |s.c.tasks.timers| && s.c.tasks.timers[i].armed && s.c.tasks.timers[i].item.completion.Settles?
    case ReconnectFires(i, _) => i < |s.c.link.reconnectTimers|
    case WorkerAnswers(w, _) => w < |s.c.tasks.workers|
    case StopClient => s.c.link.alive
    case Established => s.c.link.connection && !s.c.link.channels && s.c.link.generation !in s.conns
    case SelectSucceeds(_, _) => s.c.link.channels
    case Writable(_, _) => s.c.link.alive && s.c.link.connection && !s.c.link.recovering
    case Fails => true
    case ReadNotice(_, _) => Up(s) && s.conns[s.c.link.generation].read < |s.conns[s.c.link.generation].notices|
    case HandDelivery => Up(s) && s.conns[s.c.link.generation].handed < |s.conns[s.c.link.generation].deliveries|
                         && s.conns[s.c.link.generation].deliveries[s.conns[s.c.link.generation].handed] < |s.records|
    case TakePublish(g, _, _) => Open(s, g) && |s.conns[g].outcomes| < |WireOf(s.c, g).sent|
    case Answer(g, tag, _) => Open(s, g) && tag <= |s.conns[g].outcomes|
    case Refuse(g, tag, _) => Open(s, g)
    case Deliver(g, id) => Open(s, g) && id < |s.records| && s.records[id].place == Ready
                           && s.records[id].queue == s.c.queueName
    case TakeSettle(g) => Open(s, g) && s.conns[g].taken < |WireOf(s.c, g).settles|
    case Drop(g) => Open(s, g)
    case Foreign(_, _) => true
  }

  function OnNotice(c: Client, n: Notice, room: nat, torn: bool): Client {
    match n
    case Returned => ConnectionFailed(c)
    case Confirmed(tag, multiple) => Confirm(c, tag, multiple, true, room, torn)
    case Refusal(tag, multiple) => Confirm(c, tag, multiple, false, room, torn)
  }

  function Route(s: System, g: nat, routable: bool, refused: bool): System
    requires Open(s, g) && |s.conns[g].outcomes| < |WireOf(s.c, g).sent|
  {
    var k := s.conns[g];
    var m := WireOf(s.c, g).sent[|k.outcomes|];
    if refused then
      s.(conns := s.conns[g := k.(outcomes := k.outcomes + [Refused],
                                  notices := k.notices + [Refusal(|k.outcomes| + 1, false)])])
    else if !routable then
      s.(conns := s.conns[g := k.(outcomes := k.outcomes + [Unroutable], notices := k.notices + [Returned])])
    else
      s.(conns := s.conns[g := k.(outcomes := k.outcomes + [Stored(|s.records|)])],
         records := s.records + [Record(m.queue, m.body, Ready)])
  }

  /** True when the next settle frame of `g` names a delivery that is still unacknowledged. */
  predicate KnownTag(s: System, g: nat)
    requires Open(s, g) && s.conns[g].taken < |WireOf(s.c, g).settles|
  {
    var t := WireOf(s.c, g).settles[s.conns[g].taken].tag;
    && 1 <= t <= |s.conns[g].deliveries|
    && s.conns[g].deliveries[t - 1] < |s.records|
    && s.records[s.conns[g].deliveries[t - 1]].place == Unacked(g, t)
  }

  function DropConn(s: System, g: nat): System
    requires g in s.conns
  {
    s.(conns := s.conns[g := s.conns[g].(open := false)], records := Requeue(s.records, g))
  }

  /** Processing a settle frame; an unknown tag is a channel error. */
  function SettleNext(s: System, g: nat): System
    requires Open(s, g) && s.conns[g].taken < |WireOf(s.c, g).settles|
  {
    var k := s.conns[g];
    var f := WireOf(s.c, g).settles[k.taken];
    if !KnownTag(s, g) then DropConn(s, g)
    else
      var id := k.deliveries[f.tag - 1];
      s.(conns := s.conns[g := k.(taken := k.taken + 1)],
         records := s.records[id := s.records[id].(place := if f.AckFrame? then Removed else Ready)])
  }

  function Answered(s: System, w: nat, result: Disposition): set<nat>
    requires w < |s.c.tasks.workers|
  {
    var k := s.c.tasks.workers[w];
    if k.open && result == Ack && Delivered(s, k.generation, k.tag)
    then s.handled + {IdOf(s, k.generation, k.tag)} else s.handled
  }

  function Apply(codec: Codec, s: System, st: Step): System
    requires Enabled(s, st)
  {
    match st
    case StartPublish(queue, body) => s.(c := BeginPublish(s.c, Publication(queue, body, NoCompletion)))
    case Turn(p, spurious) => s.(c := PublisherTurn(s.c, p, spurious))
    case RunLoop(room, torn) => s.(c := RunClosure(s.c, codec, room, torn))
    case TimerFires(i) => s.(c := FireTimer(s.c, i))
    case ReconnectFires(i, built) =>
      s.(c := FireReconnect(s.c, i, built), fires := if s.c.link.alive then s.fires + 1 else s.fires)
    case WorkerAnswers(w, result) => s.(c := WorkerResult(s.c, w, result), handled := Answered(s, w, result))
    case StopClient => s.(c := Stop(s.c))
    case Established =>
      s.(c := OnConnected(s.c), conns := s.conns[s.c.link.generation := Conn(true, [], [], 0, [], 0, 0)], fires := 0)
    case SelectSucceeds(room, torn) => s.(c := SelectOk(s.c, room, torn))
    case Writable(room, torn) => s.(c := DrainPending(s.c, room, torn))
    case Fails => s.(c := ConnectionFailed(s.c))
    case ReadNotice(room, torn) =>
      var k := s.conns[s.c.link.generation];
      s.(c := OnNotice(s.c, k.notices[k.read], room, torn),
         conns := s.conns[s.c.link.generation := k.(read := k.read + 1)])
    case HandDelivery =>
      var k := s.conns[s.c.link.generation];
      s.(c := OnConsumerMessage(s.c, k.handed + 1, s.records[k.deliveries[k.handed]].body),
         conns := s.conns[s.c.link.generation := k.(handed := k.handed + 1)])
    case TakePublish(g, routable, refused) => Route(s, g, routable, refused)
    case Answer(g, tag, multiple) =>
      s.(conns := s.conns[g := s.conns[g].(notices := s.conns[g].notices + [Confirmed(tag, multiple)])])
    case Refuse(g, tag, multiple) =>
      s.(conns := s.conns[g := s.conns[g].(notices := s.conns[g].notices + [Refusal(tag, multiple)])])
    case Deliver(g, id) =>
      var k := s.conns[g];
      s.(conns := s.conns[g := k.(deliveries := k.deliveries + [id])],
         records := s.records[id := s.records[id].(place := Unacked(g, |k.deliveries| + 1))])
    case TakeSettle(g) => SettleNext(s, g)
    case Drop(g) => DropConn(s, g)
    case Foreign(queue, body) => s.(records := s.records + [Record(queue, body, Ready)])
  }

  /** The broker's steps leave the client alone. */
  lemma BrokerStepFrame(codec: Codec, s: System, st: Step)
    requires Enabled(s, st)
    requires st.TakePublish? || st.Answer? || st.Refuse? || st.Deliver? || st.TakeSettle? || st.Drop? || st.Foreign?
    ensures Apply(codec, s, st).c == s.c && Apply(codec, s, st).fires == s.fires
    ensures Apply(codec, s, st).handled == s.handled
  {}

  /** `r` is a run of `s` over `steps`. */
  ghost predicate Runs(codec: Codec, s: System, steps: seq<Step>, r: System)
    decreases |steps|
  {
    if steps == [] then r == s
    else Enabled(s, steps[0]) && Runs(codec, Apply(codec, s, steps[0]), steps[1..], r)
  }
}
