/** MQManager::Handler: the client's state as a mutable object.  Every method is proved to
    compute the transition of the same name in MqClient; the loops are the source's. */
module MqHandler {
  import opened Json
  import opened MqClient

  class Handler {
    const queueName: string
    var alive: bool
    var shuttingDown: bool
    var connection: bool
    var channels: bool
    var producerReady: bool
    var recovering: bool
    var reconnectScheduled: bool
    var reconnectDelay: nat
    var reconnectTimers: seq<nat>
    var generation: nat
    var nextPublishTag: nat
    var outstanding: int
    var pending: seq<Publication>
    var inflight: seq<Entry>
    var loop: seq<Closure>
    var timers: seq<Timer>
    var workers: seq<Worker>
    var publishers: seq<Publisher>
    var wires: map<nat, Wire>

    function View(): Client
      reads this
    {
      Client(queueName,
             Link(alive, shuttingDown, connection, channels, producerReady, recovering,
                  reconnectScheduled, reconnectDelay, reconnectTimers, generation),
             Outbox(nextPublishTag, outstanding, pending, inflight),
             Tasks(loop, timers, workers, publishers),
             wires)
    }

    constructor (queueName: string)
      ensures View() == MqClient.Fresh(queueName)
    {
      this.queueName := queueName;
      alive, shuttingDown, connection, channels := true, false, false, false;
      producerReady, recovering, reconnectScheduled := false, false, false;
      reconnectDelay, reconnectTimers, generation, nextPublishTag := 5, [], 0, 1;
      outstanding, pending, inflight, loop := 0, [], [], [];
      timers, workers, publishers, wires := [], [], [], map[];
    }

    method ConnectionFailed()
      modifies this
      ensures View() == MqClient.ConnectionFailed(old(View()))
    {
      if shuttingDown || recovering { return; }
      recovering, producerReady := true, false;
      loop := loop + [Recover];
    }

    method Connect(built: bool)
      modifies this
      ensures View() == MqClient.Connect(old(View()), built)
    {
      recovering := false;
      if built { connection := true; } else { ConnectionFailed(); }
    }

    /** Unconfirmed sends go back to the front of the queue, last tag first. */
    method RequeueInflight()
      modifies this`pending
      ensures View() == old(View()).(out := old(View()).out.(pending := Items(inflight) + old(pending)))
    {
      var i := |inflight|;
      while i > 0
        invariant 0 <= i <= |inflight|
        invariant pending == Items(inflight[i..]) + old(pending)
      {
        i := i - 1;
        assert inflight[i..][1..] == inflight[i + 1..];
        pending := [inflight[i].item] + pending;
      }
      assert inflight[0..] == inflight;
    }

    method DropChannels()
      modifies this
      ensures View() == old(View()).(out := old(View()).out.(inflight := [], nextTag := 1),
                                     link := old(View()).link.(connection := false, channels := false))
    {
      inflight, nextPublishTag := [], 1;
      connection, channels := false, false;
    }

    method Disconnect()
      modifies this
      ensures View() == MqClient.Disconnect(old(View()))
    {
      generation, producerReady := generation + 1, false;
      RequeueInflight();
      DropChannels();
    }

    method ScheduleReconnect()
      modifies this
      ensures View() == MqClient.ScheduleReconnect(old(View()))
    {
      if shuttingDown || reconnectScheduled { return; }
      reconnectScheduled := true;
      reconnectTimers := reconnectTimers + [reconnectDelay];
    }

    method FireReconnect(i: nat, built: bool)
      requires i < |reconnectTimers|
      modifies this
      ensures View() == MqClient.FireReconnect(old(View()), i, built)
    {
      reconnectTimers := reconnectTimers[..i] + reconnectTimers[i + 1..];
      if alive {
        reconnectScheduled := false;
        reconnectDelay := Min(60, reconnectDelay * 2);
        Connect(built);
      }
    }

    method Stop()
      modifies this
      ensures View() == MqClient.Stop(old(View()))
    {
      shuttingDown, alive := true, false;
      reconnectTimers := if |reconnectTimers| > 0 then reconnectTimers[..|reconnectTimers| - 1] else [];
      Disconnect();
    }

    method OnConnected()
      modifies this
      ensures View() == MqClient.OnConnected(old(View()))
    {
      reconnectDelay, channels := 5, true;
      wires := wires[generation := Wire([], [])];
    }

    method WriteSent(item: Publication)
      modifies this`wires
      ensures View() == MqClient.WriteSent(old(View()), item)
    {
      var w := MqClient.WireOf(View(), generation);
      wires := wires[generation := w.(sent := w.sent + [Outgoing(item.queue, item.body, item.completion)])];
    }

    /** A publish call that was accepted: the message moves to the in-flight map. */
    method PublishFront()
      requires pending != []
      modifies this
      ensures View() == MqClient.PublishFront(old(View()))
    {
      WriteSent(pending[0]);
      inflight := inflight + [Entry(nextPublishTag, pending[0])];
      nextPublishTag := nextPublishTag + 1;
      pending := pending[1..];
    }

    method DrainPending(room: nat, torn: bool)
      modifies this
      ensures View() == MqClient.DrainPending(old(View()), room, torn)
    {
      if !producerReady || recovering || !channels { return; }
      var left := room;
      while pending != [] && |inflight| < MAX_INFLIGHT
        invariant MqClient.DrainLoop(View(), left, torn) == MqClient.DrainLoop(old(View()), room, torn)
        decreases |pending|
      {
        if left == 0 {
          if torn { WriteSent(pending[0]); }
          ConnectionFailed();
          return;
        }
        PublishFront();
        left := left - 1;
      }
    }

    method SelectOk(room: nat, torn: bool)
      modifies this
      ensures View() == MqClient.SelectOk(old(View()), room, torn)
    {
      producerReady := true;
      DrainPending(room, torn);
    }

    method RunCompletion(k: Completion, ok: bool)
      modifies this
      ensures View() == MqClient.RunCompletion(old(View()), k, ok)
    {
      if k.Settles? && alive && k.generation == generation && channels {
        wires := MqClient.WriteSettle(View(), if ok then AckFrame(k.tag) else RejectFrame(k.tag)).wires;
      }
    }

    method Confirm(tag: nat, multiple: bool, accepted: bool, room: nat, torn: bool)
      modifies this
      ensures View() == MqClient.Confirm(old(View()), tag, multiple, accepted, room, torn)
    {
      if recovering || shuttingDown { return; }
      if !accepted { ConnectionFailed(); return; }
      var i := 0;
      while i < |inflight|
        invariant 0 <= i <= |inflight|
        invariant MqClient.ConfirmLoop(View(), i, tag, multiple) == MqClient.ConfirmLoop(old(View()), 0, tag, multiple)
        decreases |inflight| - i
      {
        if (!multiple && inflight[i].tag != tag) || (multiple && inflight[i].tag > tag) {
          i := i + 1;
        } else {
          var completion := inflight[i].item.completion;
          inflight := inflight[..i] + inflight[i + 1..];
          outstanding := outstanding - 1;
          RunCompletion(completion, true);
        }
      }
      DrainPending(room, torn);
    }

    method BeginPublish(item: Publication)
      modifies this
      ensures View() == MqClient.BeginPublish(old(View()), item)
    {
      if !alive { return; }
      publishers := publishers + [Loaded(outstanding, item)];
    }

    method PublisherTurn(p: nat, spurious: bool)
      requires p < |publishers|
      modifies this
      ensures View() == MqClient.PublisherTurn(old(View()), p, spurious)
    {
      match publishers[p]
      case Loaded(count, item) =>
        if count >= MAX_PENDING {
          publishers := publishers[p := Done];
          RunCompletion(item.completion, false);
        } else if count == outstanding && !spurious {
          outstanding := outstanding + 1;
          publishers := publishers[p := Reserved(item)];
        } else {
          publishers := publishers[p := Loaded(outstanding, item)];
        }
      case Reserved(item) =>
        publishers := publishers[p := Done];
        loop := loop + [Enqueue(item)];
      case Done =>
    }

    method OnConsumerMessage(tag: nat, body: string)
      modifies this
      ensures View() == MqClient.OnConsumerMessage(old(View()), tag, body)
    {
      workers := workers + [Worker(true, generation, tag, body)];
    }

    method WorkerResult(w: nat, result: Disposition)
      requires w < |workers|
      modifies this
      ensures View() == MqClient.WorkerResult(old(View()), w, result)
    {
      var k := workers[w];
      if !k.open { return; }
      workers := workers[w := k.(open := false)];
      loop := loop + [Complete(k.generation, k.tag, result, k.body)];
    }

    method CompleteDelivery(codec: Codec, g: nat, tag: nat, result: Disposition, body: string)
      modifies this
      ensures View() == MqClient.CompleteDelivery(old(View()), codec, g, tag, result, body)
    {
      if g != generation || !channels || recovering { return; }
      if result == Ack {
        wires := MqClient.WriteSettle(View(), AckFrame(tag)).wires;
        return;
      }
      var target, text, delay := queueName + ".dead", body, 0;
      if result == Retry {
        var job := codec.parse(body);
        if job.Some? && MqClient.Attempt(job.value).Some? {
          var attempt := MqClient.Attempt(job.value).value;
          if 0 <= attempt < 5 {
            var copy := codec.dump(WithNumber(job.value, "_attempt", attempt + 1));
            if copy.Some? {
              target, text, delay := queueName, copy.value, Min(30, Shift(attempt));
            }
          }
        }
      }
      timers := timers + [Timer(true, delay, Publication(target, text, Settles(g, tag)))];
    }

    method FireTimer(i: nat)
      requires i < |timers| && timers[i].armed && timers[i].item.completion.Settles?
      modifies this
      ensures View() == MqClient.FireTimer(old(View()), i)
    {
      var item := timers[i].item;
      timers := timers[i := timers[i].(armed := false)];
      if !alive || item.completion.generation != generation { return; }
      BeginPublish(item);
    }

    method RunClosure(codec: Codec, room: nat, torn: bool)
      requires loop != []
      modifies this
      ensures View() == MqClient.RunClosure(old(View()), codec, room, torn)
    {
      var head := loop[0];
      loop := loop[1..];
      if !alive { return; }
      match head
      case Enqueue(item) =>
        pending := pending + [item];
        DrainPending(room, torn);
      case Complete(g, tag, result, body) => CompleteDelivery(codec, g, tag, result, body);
      case Recover =>
        Disconnect();
        ScheduleReconnect();
    }
  }
}
