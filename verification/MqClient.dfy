/** The event-loop object behind the message queue: publisher confirms, consumer
    acknowledgements and reconnection. */
module MqClient {
  import opened Json
  import opened Optional

  const MAX_PENDING: int := 10000
  const MAX_INFLIGHT: int := 128

  datatype Disposition = Ack | Retry | Reject

  /** A publication either has no completion or settles one delivery when the broker answers. */
  datatype Completion = NoCompletion | Settles(generation: nat, tag: nat)

  datatype Publication = Publication(queue: string, body: string, completion: Completion)

  /** One entry of the tag-ordered in-flight map. */
  datatype Entry = Entry(tag: nat, item: Publication)

  /** Functors waiting in the event loop, in queueing order. */
  datatype Closure =
    | Enqueue(item: Publication)
    | Complete(generation: nat, tag: nat, result: Disposition, body: string)
    | Recover

  datatype Timer = Timer(armed: bool, delay: nat, item: Publication)

  /** The `ack` callable given to the message handler; `open` until its first call. */
  datatype Worker = Worker(open: bool, generation: nat, tag: nat, body: string)

  /** A thread inside schedulePublish: after its load, after its successful CAS, or finished. */
  datatype Publisher =
    | Loaded(count: int, item: Publication)
    | Reserved(item: Publication)
    | Done

  /** What a publish call was given; the completion is the client's own and is not on the wire. */
  datatype Outgoing = Outgoing(queue: string, body: string, completion: Completion)
  datatype Settle = AckFrame(tag: nat) | RejectFrame(tag: nat)

  /** Everything written to the channels of one connection, in order. */
  datatype Wire = Wire(sent: seq<Outgoing>, settles: seq<Settle>)

  /** The connection and its recovery. */
  datatype Link = Link(
    alive: bool,
    shuttingDown: bool,
    connection: bool,
    channels: bool,
    producerReady: bool,
    recovering: bool,
    reconnectScheduled: bool,
    reconnectDelay: nat,
    reconnectTimers: seq<nat>,
    generation: nat)

  /** Publications the client owns. */
  datatype Outbox = Outbox(nextTag: nat, outstanding: int, pending: seq<Publication>, inflight: seq<Entry>)

  /** Work waiting in the event loop, in timers and in other threads. */
  datatype Tasks = Tasks(loop: seq<Closure>, timers: seq<Timer>, workers: seq<Worker>, publishers: seq<Publisher>)

  datatype Client = Client(queueName: string, link: Link, out: Outbox, tasks: Tasks, wires: map<nat, Wire>)

  function Fresh(queueName: string): Client {
    Client(queueName, Link(true, false, false, false, false, false, false, 5, [], 0),
           Outbox(1, 0, [], []), Tasks([], [], [], []), map[])
  }

  function WireOf(c: Client, g: nat): Wire {
    if g in c.wires then c.wires[g] else Wire([], [])
  }

  function Items(es: seq<Entry>): (ps: seq<Publication>)
    ensures |ps| == |es|
  {
    if es == [] then [] else [es[0].item] + Items(es[1..])
  }

  // ---- Recovery -------------------------------------------------------------------------

  /** loop_->queueInLoop. */
  function Queue(c: Client, x: Closure): Client { c.(tasks := c.tasks.(loop := c.tasks.loop + [x])) }

  function ConnectionFailed(c: Client): Client {
    if c.link.shuttingDown || c.link.recovering then c
    else Queue(c.(link := c.link.(recovering := true, producerReady := false)), Recover)
  }

  /** `built` is false when constructing the connection throws. */
  function Connect(c: Client, built: bool): Client {
    var c1 := c.(link := c.link.(recovering := false));
    if built then c1.(link := c1.link.(connection := true)) else ConnectionFailed(c1)
  }

  /** Unconfirmed sends go back in front of the pending ones, in tag order. */
  function Disconnect(c: Client): Client {
    c.(link := c.link.(generation := c.link.generation + 1, producerReady := false,
                       connection := false, channels := false),
       out := c.out.(pending := Items(c.out.inflight) + c.out.pending, inflight := [], nextTag := 1))
  }

  function ScheduleReconnect(c: Client): Client {
    if c.link.shuttingDown || c.link.reconnectScheduled then c
    else c.(link := c.link.(reconnectScheduled := true,
                            reconnectTimers := c.link.reconnectTimers + [c.link.reconnectDelay]))
  }

  function Min(a: int, b: int): int { if a < b then a else b }

  function DoubledDelay(d: nat): nat { Min(60, d * 2) }

  function FireReconnect(c: Client, i: nat, built: bool): Client
    requires i < |c.link.reconnectTimers|
  {
    var c1 := c.(link := c.link.(reconnectTimers := c.link.reconnectTimers[..i] + c.link.reconnectTimers[i + 1..]));
    if !c.link.alive then c1
    else Connect(c1.(link := c1.link.(reconnectScheduled := false,
                                      reconnectDelay := DoubledDelay(c.link.reconnectDelay))), built)
  }

  function Stop(c: Client): Client {
    var n := |c.link.reconnectTimers|;
    Disconnect(c.(link := c.link.(shuttingDown := true, alive := false,
                                  reconnectTimers := if n > 0 then c.link.reconnectTimers[..n - 1] else [])))
  }

  function OnConnected(c: Client): Client {
    c.(link := c.link.(reconnectDelay := 5, channels := true), wires := c.wires[c.link.generation := Wire([], [])])
  }

  // ---- Publishing -----------------------------------------------------------------------

  function WriteSent(c: Client, p: Publication): Client {
    var w := WireOf(c, c.link.generation);
    c.(wires := c.wires[c.link.generation := w.(sent := w.sent + [Outgoing(p.queue, p.body, p.completion)])])
  }

  function WriteSettle(c: Client, s: Settle): Client {
    var w := WireOf(c, c.link.generation);
    c.(wires := c.wires[c.link.generation := w.(settles := w.settles + [s])])
  }

  /** One iteration of the drain loop whose publish call succeeds. */
  function PublishFront(c: Client): Client
    requires c.out.pending != []
  {
    var o := c.out;
    WriteSent(c, o.pending[0]).(out := o.(inflight := o.inflight + [Entry(o.nextTag, o.pending[0])],
                                          nextTag := o.nextTag + 1, pending := o.pending[1..]))
  }

  /** `room` publish calls succeed before one fails; `torn` says whether the failed call had
      already put the message on the wire. */
  function DrainLoop(c: Client, room: nat, torn: bool): Client
    decreases |c.out.pending|
  {
    if c.out.pending == [] || |c.out.inflight| >= MAX_INFLIGHT then c
    else if room == 0 then ConnectionFailed(if torn then WriteSent(c, c.out.pending[0]) else c)
    else DrainLoop(PublishFront(c), room - 1, torn)
  }

  function DrainPending(c: Client, room: nat, torn: bool): Client {
    if !c.link.producerReady || c.link.recovering || !c.link.channels then c else DrainLoop(c, room, torn)
  }

  /** confirmSelect succeeded: publishing is allowed from now on. */
  function SelectOk(c: Client, room: nat, torn: bool): Client {
    DrainPending(c.(link := c.link.(producerReady := true)), room, torn)
  }

  predicate Covers(tag: nat, multiple: bool, t: nat) {
    if multiple then t <= tag else t == tag
  }

  /** The completion of a publication, called with the broker's answer. */
  function RunCompletion(c: Client, k: Completion, ok: bool): Client {
    if k.Settles? && c.link.alive && k.generation == c.link.generation && c.link.channels
    then WriteSettle(c, if ok then AckFrame(k.tag) else RejectFrame(k.tag))
    else c
  }

  /** One iteration of the confirm loop that erases map position `i`. */
  function ConfirmAt(c: Client, i: nat): Client
    requires i < |c.out.inflight|
  {
    var o := c.out;
    RunCompletion(c.(out := o.(inflight := o.inflight[..i] + o.inflight[i + 1..], outstanding := o.outstanding - 1)),
                  o.inflight[i].item.completion, true)
  }

  /** The confirm loop from map position `i` on. */
  function ConfirmLoop(c: Client, i: nat, tag: nat, multiple: bool): Client
    requires i <= |c.out.inflight|
    decreases |c.out.inflight| - i
  {
    if i == |c.out.inflight| then c
    else if !Covers(tag, multiple, c.out.inflight[i].tag) then ConfirmLoop(c, i + 1, tag, multiple)
    else ConfirmLoop(ConfirmAt(c, i), i, tag, multiple)
  }

  function Confirm(c: Client, tag: nat, multiple: bool, accepted: bool, room: nat, torn: bool): Client {
    if c.link.recovering || c.link.shuttingDown then c
    else if !accepted then ConnectionFailed(c)
    else DrainPending(ConfirmLoop(c, 0, tag, multiple), room, torn)
  }

  function SetPublisher(c: Client, p: nat, x: Publisher): Client
    requires p < |c.tasks.publishers|
  {
    c.(tasks := c.tasks.(publishers := c.tasks.publishers[p := x]))
  }

  /** schedulePublish up to its first load of the counter. */
  function BeginPublish(c: Client, item: Publication): Client {
    if !c.link.alive then c
    else c.(tasks := c.tasks.(publishers := c.tasks.publishers + [Loaded(c.out.outstanding, item)]))
  }

  /** The bound check and compare-exchange of thread `p`, which may fail spuriously and reloads. */
  function TryReserve(c: Client, p: nat, count: int, item: Publication, spurious: bool): Client
    requires p < |c.tasks.publishers|
  {
    if count >= MAX_PENDING then RunCompletion(SetPublisher(c, p, Done), item.completion, false)
    else if count == c.out.outstanding && !spurious then
      SetPublisher(c.(out := c.out.(outstanding := c.out.outstanding + 1)), p, Reserved(item))
    else SetPublisher(c, p, Loaded(c.out.outstanding, item))
  }

  /** One turn of thread `p` inside schedulePublish. */
  function PublisherTurn(c: Client, p: nat, spurious: bool): Client
    requires p < |c.tasks.publishers|
  {
    match c.tasks.publishers[p]
    case Loaded(count, item) => TryReserve(c, p, count, item, spurious)
    case Reserved(item) => Queue(SetPublisher(c, p, Done), Enqueue(item))
    case Done => c
  }

  // ---- Consuming ------------------------------------------------------------------------

  function OnConsumerMessage(c: Client, tag: nat, body: string): Client {
    c.(tasks := c.tasks.(workers := c.tasks.workers + [Worker(true, c.link.generation, tag, body)]))
  }

  /** A call of the handler's `ack`; only the first one counts. */
  function WorkerResult(c: Client, w: nat, result: Disposition): Client
    requires w < |c.tasks.workers|
  {
    var k := c.tasks.workers[w];
    if !k.open then c
    else Queue(c.(tasks := c.tasks.(workers := c.tasks.workers[w := k.(open := false)])),
               Complete(k.generation, k.tag, result, k.body))
  }

  datatype Copy = Copy(queue: string, body: string, delay: nat)

  /** The attempt counter of a retried body, if the body is an object that has a usable one. */
  function Attempt(job: Json): Option<int> {
    if !job.Obj? then None
    else if "_attempt" in job.fields then GetInt32(job.fields["_attempt"])
    else Some(0)
  }

  function Shift(attempt: nat): nat { if attempt == 0 then 1 else 2 * Shift(attempt - 1) }

  /** What a delivery that was not acknowledged is republished as. */
  function Replacement(codec: Codec, name: string, result: Disposition, body: string): Copy {
    var dead := Copy(name + ".dead", body, 0);
    if result != Retry then dead
    else
      match codec.parse(body)
      case None => dead
      case Some(job) =>
        match Attempt(job)
        case None => dead
        case Some(attempt) =>
          if 0 <= attempt < 5 then
            match codec.dump(WithNumber(job, "_attempt", attempt + 1))
            case None => dead
            case Some(text) => Copy(name, text, Min(30, Shift(attempt)))
          else dead
  }

  function CompleteDelivery(c: Client, codec: Codec, g: nat, tag: nat, result: Disposition, body: string): Client {
    if g != c.link.generation || !c.link.channels || c.link.recovering then c
    else if result == Ack then WriteSettle(c, AckFrame(tag))
    else
      var r := Replacement(codec, c.queueName, result, body);
      AddTimer(c, Timer(true, r.delay, Publication(r.queue, r.body, Settles(g, tag))))
  }

  function AddTimer(c: Client, t: Timer): Client { c.(tasks := c.tasks.(timers := c.tasks.timers + [t])) }

  /** The delayed republish of delivery `g, tag`; stale generations are dropped. */
  function FireTimer(c: Client, i: nat): Client
    requires i < |c.tasks.timers| && c.tasks.timers[i].armed && c.tasks.timers[i].item.completion.Settles?
  {
    var t := c.tasks.timers[i];
    var c1 := c.(tasks := c.tasks.(timers := c.tasks.timers[i := t.(armed := false)]));
    if !c.link.alive || t.item.completion.generation != c.link.generation then c1 else BeginPublish(c1, t.item)
  }

  // ---- Event loop -----------------------------------------------------------------------

  function RunClosure(c: Client, codec: Codec, room: nat, torn: bool): Client
    requires c.tasks.loop != []
  {
    var c1 := c.(tasks := c.tasks.(loop := c.tasks.loop[1..]));
    if !c.link.alive then c1
    else
      match c.tasks.loop[0]
      case Enqueue(item) => DrainPending(c1.(out := c1.out.(pending := c1.out.pending + [item])), room, torn)
      case Complete(g, tag, result, body) => CompleteDelivery(c1, codec, g, tag, result, body)
      case Recover => ScheduleReconnect(Disconnect(c1))
  }
}
