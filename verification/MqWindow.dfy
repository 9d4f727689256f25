/** The publication sequence and its windows: nothing admitted is lost, reordered or
    miscounted while the client is alive. */
module MqWindow {
  import opened Counting
  import opened Json
  import opened MqClient
  import opened MqSystem

  /** The publications waiting in the event loop, in queueing order. */
  ghost function Queued(loop: seq<Closure>): seq<Publication> {
    if loop == [] then []
    else (if loop[0].Enqueue? then [loop[0].item] else []) + Queued(loop[1..])
  }

  /** Everything admitted and not yet confirmed, in publication order. */
  ghost function Line(c: Client): seq<Publication> {
    Items(c.out.inflight) + c.out.pending + Queued(c.tasks.loop)
  }

  ghost function IsReserved(): Publisher -> bool { (x: Publisher) => x.Reserved? }

  ghost predicate Window(c: Client) {
    && c.link.alive == !c.link.shuttingDown
    && 0 <= c.out.outstanding <= MAX_PENDING
    && |c.out.inflight| <= MAX_INFLIGHT
    && (c.link.alive ==> c.out.outstanding == |Line(c)| + Count(IsReserved(), c.tasks.publishers))
  }

  /** The in-flight entries a confirmation leaves. */
  ghost function Kept(es: seq<Entry>, tag: nat, multiple: bool): (r: seq<Entry>)
    ensures |r| <= |es|
  {
    if es == [] then []
    else (if Covers(tag, multiple, es[0].tag) then [] else [es[0]]) + Kept(es[1..], tag, multiple)
  }

  /** The items of the entries a confirmation covers. */
  ghost function Covered(es: seq<Entry>, tag: nat, multiple: bool): seq<Publication> {
    if es == [] then []
    else (if Covers(tag, multiple, es[0].tag) then [es[0].item] else []) + Covered(es[1..], tag, multiple)
  }

  // ---- Effect of the loops ----------------------------------------------------------------

  lemma {:induction false} QueuedAppend(loop: seq<Closure>, x: Closure)
    ensures Queued(loop + [x]) == Queued(loop) + (if x.Enqueue? then [x.item] else [])
  {
    if loop == [] {
      assert [] + [x] == [x];
    } else {
      var rest, more := loop[1..], loop + [x];
      assert more[1..] == rest + [x] && more[0] == loop[0];
      QueuedAppend(rest, x);
      var head := if loop[0].Enqueue? then [loop[0].item] else [];
      var last := if x.Enqueue? then [x.item] else [];
      assert Queued(loop) == head + Queued(rest) && Queued(more) == head + Queued(rest + [x]);
      assert head + (Queued(rest) + last) == (head + Queued(rest)) + last;
    }
  }

  lemma {:induction false} ItemsConcat(a: seq<Entry>, b: seq<Entry>)
    ensures Items(a + b) == Items(a) + Items(b)
  {
    if a == [] {
      assert a + b == b;
    } else {
      assert (a + b)[1..] == a[1..] + b;
      ItemsConcat(a[1..], b);
    }
  }

  lemma FailedLine(c: Client)
    ensures Line(ConnectionFailed(c)) == Line(c)
  {
    QueuedAppend(c.tasks.loop, Recover);
  }

  lemma {:induction false} DrainLine(c: Client, room: nat, torn: bool)
    requires |c.out.inflight| <= MAX_INFLIGHT
    ensures Line(DrainLoop(c, room, torn)) == Line(c)
    ensures |DrainLoop(c, room, torn).out.inflight| <= MAX_INFLIGHT
    ensures DrainLoop(c, room, torn).out.outstanding == c.out.outstanding
    ensures DrainLoop(c, room, torn).tasks.publishers == c.tasks.publishers
    ensures DrainLoop(c, room, torn).link.alive == c.link.alive
    ensures DrainLoop(c, room, torn).link.shuttingDown == c.link.shuttingDown
    decreases |c.out.pending|
  {
    var o := c.out;
    if o.pending != [] && |o.inflight| < MAX_INFLIGHT {
      if room == 0 {
        FailedLine(if torn then WriteSent(c, o.pending[0]) else c);
      } else {
        var e := Entry(o.nextTag, o.pending[0]);
        ItemsConcat(o.inflight, [e]);
        assert Items([e]) == [o.pending[0]];
        assert Items(o.inflight + [e]) + o.pending[1..] == Items(o.inflight) + o.pending;
        DrainLine(PublishFront(c), room - 1, torn);
      }
    }
  }

  lemma DrainWindow(c: Client, room: nat, torn: bool)
    requires Window(c)
    ensures Window(DrainPending(c, room, torn)) && Line(DrainPending(c, room, torn)) == Line(c)
  {
    DrainLine(c, room, torn);
  }

  lemma ConfirmAtEffect(c: Client, i: nat)
    requires i < |c.out.inflight|
    ensures var d := ConfirmAt(c, i); var es := c.out.inflight;
      && d.out == c.out.(inflight := es[..i] + es[i + 1..], outstanding := c.out.outstanding - 1)
      && d.tasks == c.tasks && d.link == c.link
  {}

  /** The confirm loop erases exactly the covered entries and counts them off. */
  lemma {:induction false} ConfirmEffect(c: Client, i: nat, tag: nat, multiple: bool)
    requires i <= |c.out.inflight|
    ensures var d := ConfirmLoop(c, i, tag, multiple); var left := c.out.inflight[..i] + Kept(c.out.inflight[i..], tag, multiple);
      && d.out == c.out.(inflight := left, outstanding := c.out.outstanding - (|c.out.inflight| - |left|))
      && d.tasks == c.tasks && d.link == c.link
    decreases |c.out.inflight| - i
  {
    var es := c.out.inflight;
    if i == |es| {
      assert es[..i] + [] == es;
    } else if !Covers(tag, multiple, es[i].tag) {
      ConfirmEffect(c, i + 1, tag, multiple);
      assert es[i..][1..] == es[i + 1..];
      assert es[..i + 1] + Kept(es[i + 1..], tag, multiple) == es[..i] + Kept(es[i..], tag, multiple);
    } else {
      ConfirmAtEffect(c, i);
      var rest := es[..i] + es[i + 1..];
      assert rest[..i] == es[..i] && rest[i..] == es[i + 1..];
      ConfirmEffect(ConfirmAt(c, i), i, tag, multiple);
      assert es[i..][1..] == es[i + 1..];
      assert Kept(es[i..], tag, multiple) == Kept(es[i + 1..], tag, multiple);
    }
  }

  // ---- Steps ------------------------------------------------------------------------------

  /** The publication this step admits to the sequence. */
  ghost function Admits(s: System, st: Step): seq<Publication>
    requires Enabled(s, st)
  {
    if st.Turn? && s.c.tasks.publishers[st.p].Reserved? then [s.c.tasks.publishers[st.p].item] else []
  }

  /** True for a step in which the client acts on a broker confirmation. */
  ghost predicate Confirms(s: System, st: Step)
    requires Enabled(s, st)
  {
    && st.ReadNotice? && !s.c.link.recovering && !s.c.link.shuttingDown
    && var k := s.conns[s.c.link.generation]; k.notices[k.read].Confirmed?
  }

  /** The sequence after a step: confirmed entries leave, an admitted item joins at the end. */
  ghost function LineAfter(s: System, st: Step): seq<Publication>
    requires Enabled(s, st)
  {
    if Confirms(s, st) then
      var k := s.conns[s.c.link.generation];
      var n := k.notices[k.read];
      Items(Kept(s.c.out.inflight, n.tag, n.multiple)) + s.c.out.pending + Queued(s.c.tasks.loop)
    else Line(s.c) + Admits(s, st)
  }

  lemma ConfirmWindow(c: Client, tag: nat, multiple: bool, room: nat, torn: bool)
    requires Window(c) && !c.link.recovering && !c.link.shuttingDown
    ensures Window(Confirm(c, tag, multiple, true, room, torn))
    ensures Line(Confirm(c, tag, multiple, true, room, torn)) ==
            Items(Kept(c.out.inflight, tag, multiple)) + c.out.pending + Queued(c.tasks.loop)
  {
    ConfirmEffect(c, 0, tag, multiple);
    var d := ConfirmLoop(c, 0, tag, multiple);
    assert c.out.inflight[0..] == c.out.inflight;
    assert d.out.inflight == Kept(c.out.inflight, tag, multiple);
    DrainWindow(d, room, torn);
  }

  lemma NoticeWindow(c: Client, n: Notice, room: nat, torn: bool)
    requires Window(c)
    ensures Window(OnNotice(c, n, room, torn))
    ensures Line(OnNotice(c, n, room, torn)) ==
      if n.Confirmed? && !c.link.recovering && !c.link.shuttingDown
      then Items(Kept(c.out.inflight, n.tag, n.multiple)) + c.out.pending + Queued(c.tasks.loop)
      else Line(c)
  {
    FailedLine(c);
    if n.Confirmed? && !c.link.recovering && !c.link.shuttingDown {
      ConfirmWindow(c, n.tag, n.multiple, room, torn);
    }
  }

  lemma DisconnectLine(c: Client)
    ensures Line(Disconnect(c)) == Line(c)
  {
    assert Items([]) + (Items(c.out.inflight) + c.out.pending) == Items(c.out.inflight) + c.out.pending;
  }

  lemma RunWindow(codec: Codec, c: Client, room: nat, torn: bool)
    requires Window(c) && c.tasks.loop != []
    ensures Window(RunClosure(c, codec, room, torn))
    ensures c.link.alive ==> Line(RunClosure(c, codec, room, torn)) == Line(c)
  {
    var c1 := c.(tasks := c.tasks.(loop := c.tasks.loop[1..]));
    match c.tasks.loop[0]
    case Enqueue(item) =>
      if c.link.alive {
        var c2 := c1.(out := c1.out.(pending := c1.out.pending + [item]));
        assert Line(c2) == Line(c);
        DrainWindow(c2, room, torn);
      }
    case Complete(_, _, _, _) => assert Line(c1) == Line(c);
    case Recover =>
      assert Line(c1) == Line(c);
      DisconnectLine(c1);
  }

  lemma TurnWindow(c: Client, p: nat, spurious: bool)
    requires Window(c) && p < |c.tasks.publishers|
    ensures Window(PublisherTurn(c, p, spurious))
    ensures Line(PublisherTurn(c, p, spurious)) ==
            Line(c) + (if c.tasks.publishers[p].Reserved? then [c.tasks.publishers[p].item] else [])
  {
    match c.tasks.publishers[p]
    case Loaded(count, item) =>
      CountUpdate(IsReserved(), c.tasks.publishers, p, Done);
      CountUpdate(IsReserved(), c.tasks.publishers, p, Reserved(item));
      CountUpdate(IsReserved(), c.tasks.publishers, p, Loaded(c.out.outstanding, item));
      var d := TryReserve(c, p, count, item, spurious);
      assert Items(d.out.inflight) + d.out.pending + Queued(d.tasks.loop) == Line(c);
    case Reserved(item) =>
      CountUpdate(IsReserved(), c.tasks.publishers, p, Done);
      QueuedAppend(c.tasks.loop, Enqueue(item));
    case Done =>
  }

  lemma WorkerWindow(c: Client, w: nat, result: Disposition)
    requires Window(c) && w < |c.tasks.workers|
    ensures Window(WorkerResult(c, w, result)) && Line(WorkerResult(c, w, result)) == Line(c)
  {
    var k := c.tasks.workers[w];
    QueuedAppend(c.tasks.loop, Complete(k.generation, k.tag, result, k.body));
  }

  lemma BeginWindow(c: Client, item: Publication)
    requires Window(c)
    ensures Window(BeginPublish(c, item)) && Line(BeginPublish(c, item)) == Line(c)
  {
    CountAppend(IsReserved(), c.tasks.publishers, Loaded(c.out.outstanding, item));
  }

  lemma FireWindow(c: Client, i: nat)
    requires Window(c) && i < |c.tasks.timers| && c.tasks.timers[i].armed && c.tasks.timers[i].item.completion.Settles?
    ensures Window(FireTimer(c, i)) && Line(FireTimer(c, i)) == Line(c)
  {
    var t := c.tasks.timers[i];
    var c1 := c.(tasks := c.tasks.(timers := c.tasks.timers[i := t.(armed := false)]));
    assert Line(c1) == Line(c);
    BeginWindow(c1, t.item);
  }

  lemma ReconnectWindow(c: Client, i: nat, built: bool)
    requires Window(c) && i < |c.link.reconnectTimers|
    ensures Window(FireReconnect(c, i, built)) && Line(FireReconnect(c, i, built)) == Line(c)
  {
    QueuedAppend(c.tasks.loop, Recover);
  }

  lemma ThreadStep(codec: Codec, s: System, st: Step)
    requires Window(s.c) && Enabled(s, st)
    requires st.StartPublish? || st.Turn? || st.RunLoop? || st.TimerFires? || st.ReconnectFires? || st.WorkerAnswers?
    ensures Window(Apply(codec, s, st).c)
    ensures s.c.link.alive ==> Line(Apply(codec, s, st).c) == LineAfter(s, st)
  {
    match st
    case StartPublish(queue, body) => BeginWindow(s.c, Publication(queue, body, NoCompletion));
    case Turn(p, spurious) => TurnWindow(s.c, p, spurious);
    case RunLoop(room, torn) => RunWindow(codec, s.c, room, torn);
    case TimerFires(i) => FireWindow(s.c, i);
    case ReconnectFires(i, built) => ReconnectWindow(s.c, i, built);
    case WorkerAnswers(w, result) => WorkerWindow(s.c, w, result);
    case _ =>
  }

  lemma EventStep(codec: Codec, s: System, st: Step)
    requires Window(s.c) && Enabled(s, st)
    requires st.Established? || st.SelectSucceeds? || st.Writable? || st.Fails? || st.ReadNotice? || st.HandDelivery?
    ensures Window(Apply(codec, s, st).c)
    ensures s.c.link.alive ==> Line(Apply(codec, s, st).c) == LineAfter(s, st)
  {
    match st
    case SelectSucceeds(room, torn) =>
      var c1 := s.c.(link := s.c.link.(producerReady := true));
      assert Line(c1) == Line(s.c);
      DrainWindow(c1, room, torn);
    case Writable(room, torn) => DrainWindow(s.c, room, torn);
    case Fails => FailedLine(s.c);
    case ReadNotice(room, torn) =>
      var k := s.conns[s.c.link.generation];
      NoticeWindow(s.c, k.notices[k.read], room, torn);
    case _ =>
  }

  /** One step of a live client changes the sequence only by admitting one item at its end or by
      dropping entries the broker confirmed; disconnecting and resending change nothing. */
  lemma LineStep(codec: Codec, s: System, st: Step)
    requires Window(s.c) && Enabled(s, st)
    ensures Window(Apply(codec, s, st).c)
    ensures s.c.link.alive && !st.StopClient? ==> Line(Apply(codec, s, st).c) == LineAfter(s, st)
  {
    if st.StopClient? {
    } else if st.StartPublish? || st.Turn? || st.RunLoop? || st.TimerFires? || st.ReconnectFires? || st.WorkerAnswers? {
      ThreadStep(codec, s, st);
    } else if st.Established? || st.SelectSucceeds? || st.Writable? || st.Fails? || st.ReadNotice? || st.HandDelivery? {
      EventStep(codec, s, st);
    } else {
      BrokerStepFrame(codec, s, st);
    }
  }

  // ---- Runs -------------------------------------------------------------------------------

  /** `a` is `b` with some elements deleted. */
  ghost predicate Subsequence<T>(a: seq<T>, b: seq<T>) {
    a == [] || (b != [] && ((a[0] == b[0] && Subsequence(a[1..], b[1..])) || Subsequence(a, b[1..])))
  }

  lemma {:induction false} SubsequenceSame<T>(a: seq<T>)
    ensures Subsequence(a, a)
  {
    if a != [] { SubsequenceSame(a[1..]); }
  }

  lemma {:induction false} SubsequenceSkip<T>(a: seq<T>, b: seq<T>)
    requires a != [] && Subsequence(a, b)
    ensures Subsequence(a[1..], b)
    decreases |b|
  {
    if a[0] == b[0] && Subsequence(a[1..], b[1..]) {
    } else {
      SubsequenceSkip(a, b[1..]);
    }
  }

  lemma {:induction false} SubsequenceTrans<T>(a: seq<T>, b: seq<T>, c: seq<T>)
    requires Subsequence(a, b) && Subsequence(b, c)
    ensures Subsequence(a, c)
    decreases |b| + |c|
  {
    if a != [] {
      if b[0] == c[0] && Subsequence(b[1..], c[1..]) {
        if a[0] == b[0] && Subsequence(a[1..], b[1..]) {
          SubsequenceTrans(a[1..], b[1..], c[1..]);
        } else {
          SubsequenceTrans(a, b[1..], c[1..]);
        }
      } else {
        SubsequenceTrans(a, b, c[1..]);
      }
    }
  }

  lemma {:induction false} SubsequenceAppend<T>(a: seq<T>, b: seq<T>, t: seq<T>)
    requires Subsequence(a, b)
    ensures Subsequence(a + t, b + t)
    decreases |b|
  {
    if b == [] {
      SubsequenceSame(t);
      assert a + t == t && b + t == t;
    } else {
      assert (b + t)[1..] == b[1..] + t;
      if a == [] {
        SubsequenceAppend(a, b[1..], t);
      } else if a[0] == b[0] && Subsequence(a[1..], b[1..]) {
        assert (a + t)[1..] == a[1..] + t;
        SubsequenceAppend(a[1..], b[1..], t);
      } else {
        SubsequenceAppend(a, b[1..], t);
      }
    }
  }

  lemma SubsequenceChain<T>(a: seq<T>, t: seq<T>, b: seq<T>, u: seq<T>, c: seq<T>)
    requires Subsequence(b, a + t) && Subsequence(c, b + u)
    ensures Subsequence(c, a + (t + u))
  {
    SubsequenceAppend(b, a + t, u);
    SubsequenceTrans(c, b + u, a + t + u);
    assert a + t + u == a + (t + u);
  }

  lemma {:induction false} KeptItems(es: seq<Entry>, tag: nat, multiple: bool)
    ensures Subsequence(Items(Kept(es, tag, multiple)), Items(es))
  {
    if es != [] {
      var rest := Kept(es[1..], tag, multiple);
      KeptItems(es[1..], tag, multiple);
      if Covers(tag, multiple, es[0].tag) {
        assert [] + rest == rest;
      } else {
        assert ([es[0]] + rest)[1..] == rest;
      }
    }
  }

  /** The items admitted during a run, in order. */
  ghost function Admitted(codec: Codec, s: System, steps: seq<Step>, r: System): seq<Publication>
    requires Runs(codec, s, steps, r)
    decreases |steps|
  {
    if steps == [] then []
    else Admits(s, steps[0]) + Admitted(codec, Apply(codec, s, steps[0]), steps[1..], r)
  }

  /** What a step takes out of the sequence: the entries a confirmation covers, and nothing else. */
  ghost function Confirmed(s: System, st: Step): seq<Publication>
    requires Enabled(s, st)
  {
    if Confirms(s, st) then
      var k := s.conns[s.c.link.generation];
      var n := k.notices[k.read];
      Covered(s.c.out.inflight, n.tag, n.multiple)
    else []
  }

  /** Everything confirmed over a run. */
  ghost function AllConfirmed(codec: Codec, s: System, steps: seq<Step>, r: System): seq<Publication>
    requires Runs(codec, s, steps, r)
    decreases |steps|
  {
    if steps == [] then []
    else Confirmed(s, steps[0]) + AllConfirmed(codec, Apply(codec, s, steps[0]), steps[1..], r)
  }

  /** `a` is `b` and `c` put together, in some order. */
  ghost predicate Together<T>(a: seq<T>, b: seq<T>, c: seq<T>) { multiset(a) == multiset(b) + multiset(c) }

  lemma Concatenated<T>(a: seq<T>, b: seq<T>)
    ensures multiset(a + b) == multiset(a) + multiset(b)
  {
  }

  lemma TogetherHead<T>(x: T, a: seq<T>, b: seq<T>, c: seq<T>)
    requires Together(a, b, c)
    ensures Together([x] + a, [x] + b, c) && Together([x] + a, b, [x] + c)
  {
    Concatenated([x], a);
    Concatenated([x], b);
    Concatenated([x], c);
  }

  lemma TogetherTail<T>(a: seq<T>, b: seq<T>, c: seq<T>, tail: seq<T>)
    requires Together(a, b, c)
    ensures Together(a + tail, b + tail, c)
  {
    Concatenated(a, tail);
    Concatenated(b, tail);
  }

  lemma TogetherChain<T>(a: seq<T>, b: seq<T>, c: seq<T>, more: seq<T>, d: seq<T>, e: seq<T>)
    requires Together(a, b, c) && Together(b + more, d, e)
    ensures Together(a + more, d, c + e)
  {
    Concatenated(a, more);
    Concatenated(b, more);
    Concatenated(c, e);
    var x, y, z := multiset(b), multiset(c), multiset(more);
    assert (x + y) + z == (x + z) + y;
    assert (multiset(d) + multiset(e)) + y == multiset(d) + (y + multiset(e));
  }

  lemma TogetherNothing<T>(a: seq<T>)
    ensures Together(a, a, [])
  {
  }

  /** What becomes of the first entry. */
  lemma KeptHead(es: seq<Entry>, tag: nat, multiple: bool)
    requires es != []
    ensures var e, rest := es[0], es[1..];
      var kept, gone := Kept(rest, tag, multiple), Covered(rest, tag, multiple);
      && Items(es) == [e.item] + Items(rest)
      && if Covers(tag, multiple, e.tag) then Kept(es, tag, multiple) == kept && Covered(es, tag, multiple) == [e.item] + gone
         else Items(Kept(es, tag, multiple)) == [e.item] + Items(kept) && Covered(es, tag, multiple) == gone
  {
    var kept, gone := Kept(es[1..], tag, multiple), Covered(es[1..], tag, multiple);
    assert [] + kept == kept && [] + gone == gone;
    assert ([es[0]] + kept)[1..] == kept;
  }

  lemma {:induction false} KeptAndCovered(es: seq<Entry>, tag: nat, multiple: bool)
    ensures Together(Items(es), Items(Kept(es, tag, multiple)), Covered(es, tag, multiple))
  {
    if es == [] {
      TogetherNothing<Publication>([]);
    } else {
      hide *;
      var rest := es[1..];
      KeptHead(es, tag, multiple);
      KeptAndCovered(rest, tag, multiple);
      TogetherHead(es[0].item, Items(rest), Items(Kept(rest, tag, multiple)), Covered(rest, tag, multiple));
    }
  }

  /** The three sequences of a step in which the client acts on a confirmation. */
  lemma ConfirmedLine(s: System, st: Step)
    requires Enabled(s, st) && Confirms(s, st)
    ensures var k := s.conns[s.c.link.generation]; var n := k.notices[k.read];
      var es, tail := s.c.out.inflight, s.c.out.pending + Queued(s.c.tasks.loop);
      && Line(s.c) + Admits(s, st) == Items(es) + tail
      && LineAfter(s, st) == Items(Kept(es, n.tag, n.multiple)) + tail
      && Confirmed(s, st) == Covered(es, n.tag, n.multiple)
  {
    hide Items, Kept, Covered, Queued;
  }

  lemma OtherLine(s: System, st: Step)
    requires Enabled(s, st) && !Confirms(s, st)
    ensures LineAfter(s, st) == Line(s.c) + Admits(s, st) && Confirmed(s, st) == []
  {
    hide Line, Admits;
  }

  lemma StepKeepsOrder(codec: Codec, s: System, st: Step)
    requires Window(s.c) && Enabled(s, st) && s.c.link.alive && !st.StopClient?
    ensures Subsequence(Line(Apply(codec, s, st).c), Line(s.c) + Admits(s, st))
    ensures Together(Line(s.c) + Admits(s, st), Line(Apply(codec, s, st).c), Confirmed(s, st))
  {
    LineStep(codec, s, st);
    if Confirms(s, st) {
      ConfirmedLine(s, st);
      var k := s.conns[s.c.link.generation];
      var n := k.notices[k.read];
      var es, tail := s.c.out.inflight, s.c.out.pending + Queued(s.c.tasks.loop);
      hide *;
      KeptItems(es, n.tag, n.multiple);
      KeptAndCovered(es, n.tag, n.multiple);
      SubsequenceAppend(Items(Kept(es, n.tag, n.multiple)), Items(es), tail);
      TogetherTail(Items(es), Items(Kept(es, n.tag, n.multiple)), Covered(es, n.tag, n.multiple), tail);
    } else {
      OtherLine(s, st);
      hide *;
      SubsequenceSame(Line(s.c) + Admits(s, st));
      TogetherNothing(Line(s.c) + Admits(s, st));
    }
  }

  lemma NoSteps(codec: Codec, s: System, r: System)
    requires Runs(codec, s, [], r)
    ensures r == s && Subsequence(Line(r.c), Line(s.c) + Admitted(codec, s, [], r))
    ensures Together(Line(s.c) + Admitted(codec, s, [], r), Line(r.c), AllConfirmed(codec, s, [], r))
  {
    hide Line;
    assert Line(s.c) + [] == Line(s.c);
    SubsequenceSame(Line(s.c));
    TogetherNothing(Line(s.c));
  }

  /** The run begins with this step. */
  lemma FirstStep(codec: Codec, s: System, steps: seq<Step>, r: System)
    requires steps != [] && Runs(codec, s, steps, r)
    ensures Enabled(s, steps[0]) && Runs(codec, Apply(codec, s, steps[0]), steps[1..], r)
    ensures var s1 := Apply(codec, s, steps[0]);
      && Admitted(codec, s, steps, r) == Admits(s, steps[0]) + Admitted(codec, s1, steps[1..], r)
      && AllConfirmed(codec, s, steps, r) == Confirmed(s, steps[0]) + AllConfirmed(codec, s1, steps[1..], r)
  {
    hide Apply, Enabled, Admits, Confirmed;
  }

  /** While the client stays alive, what it still has to publish is what it had and admitted, in
      the same order, without exactly the entries that confirmations covered. */
  lemma {:induction false} OrderKept(codec: Codec, s: System, steps: seq<Step>, r: System)
    requires Window(s.c) && s.c.link.alive && Runs(codec, s, steps, r)
    requires forall i :: 0 <= i < |steps| ==> !steps[i].StopClient?
    ensures Window(r.c)
    ensures Subsequence(Line(r.c), Line(s.c) + Admitted(codec, s, steps, r))
    ensures Together(Line(s.c) + Admitted(codec, s, steps, r), Line(r.c), AllConfirmed(codec, s, steps, r))
    decreases |steps|
  {
    hide *;
    if steps == [] {
      NoSteps(codec, s, r);
    } else {
      FirstStep(codec, s, steps, r);
      var s1 := Apply(codec, s, steps[0]);
      LineStep(codec, s, steps[0]);
      AliveStep(codec, s, steps[0]);
      OrderKept(codec, s1, steps[1..], r);
      OrderChained(codec, s, steps[0], Admitted(codec, s1, steps[1..], r), Line(r.c), AllConfirmed(codec, s1, steps[1..], r));
    }
  }

  lemma OrderChained(codec: Codec, s: System, st: Step, more: seq<Publication>, line: seq<Publication>, gone: seq<Publication>)
    requires Window(s.c) && Enabled(s, st) && s.c.link.alive && !st.StopClient?
    requires Subsequence(line, Line(Apply(codec, s, st).c) + more) && Together(Line(Apply(codec, s, st).c) + more, line, gone)
    ensures Subsequence(line, Line(s.c) + (Admits(s, st) + more))
    ensures Together(Line(s.c) + (Admits(s, st) + more), line, Confirmed(s, st) + gone)
  {
    hide *;
    var l, a, l1 := Line(s.c), Admits(s, st), Line(Apply(codec, s, st).c);
    StepKeepsOrder(codec, s, st);
    SubsequenceChain(l, a, l1, more, line);
    TogetherChain(l + a, l1, Confirmed(s, st), more, line, gone);
    assert l + a + more == l + (a + more);
  }

  /** The window bounds hold in every reachable state. */
  lemma {:induction false} WindowAlways(codec: Codec, s: System, steps: seq<Step>, r: System)
    requires Init(s) && Runs(codec, s, steps, r)
    ensures Window(r.c)
  {
    QueuedAppend([], Recover);
    WindowRun(codec, s, steps, r);
  }

  lemma {:induction false} WindowRun(codec: Codec, s: System, steps: seq<Step>, r: System)
    requires Window(s.c) && Runs(codec, s, steps, r)
    ensures Window(r.c)
    decreases |steps|
  {
    if steps != [] {
      LineStep(codec, s, steps[0]);
      WindowRun(codec, Apply(codec, s, steps[0]), steps[1..], r);
    }
  }

  lemma {:induction false} DrainAlive(c: Client, room: nat, torn: bool)
    ensures DrainLoop(c, room, torn).link.alive == c.link.alive
    decreases |c.out.pending|
  {
    if c.out.pending != [] && |c.out.inflight| < MAX_INFLIGHT && room > 0 {
      DrainAlive(PublishFront(c), room - 1, torn);
    }
  }

  lemma AliveEvent(codec: Codec, s: System, st: Step)
    requires Enabled(s, st)
    requires st.Established? || st.SelectSucceeds? || st.Writable? || st.Fails? || st.ReadNotice? || st.HandDelivery?
    ensures Apply(codec, s, st).c.link.alive == s.c.link.alive
  {
    match st
    case SelectSucceeds(room, torn) => DrainAlive(s.c.(link := s.c.link.(producerReady := true)), room, torn);
    case Writable(room, torn) => DrainAlive(s.c, room, torn);
    case ReadNotice(room, torn) =>
      var k := s.conns[s.c.link.generation];
      var n := k.notices[k.read];
      if n.Confirmed? {
        ConfirmEffect(s.c, 0, n.tag, n.multiple);
        DrainAlive(ConfirmLoop(s.c, 0, n.tag, n.multiple), room, torn);
      }
    case _ =>
  }

  /** Only stopping ends a client's life. */
  lemma AliveStep(codec: Codec, s: System, st: Step)
    requires Enabled(s, st) && !st.StopClient?
    ensures Apply(codec, s, st).c.link.alive == s.c.link.alive
  {
    if st.RunLoop? {
      var c1 := s.c.(tasks := s.c.tasks.(loop := s.c.tasks.loop[1..]));
      if s.c.tasks.loop[0].Enqueue? {
        DrainAlive(c1.(out := c1.out.(pending := c1.out.pending + [s.c.tasks.loop[0].item])), st.room, st.torn);
      }
    } else if st.Established? || st.SelectSucceeds? || st.Writable? || st.Fails? || st.ReadNotice? || st.HandDelivery? {
      AliveEvent(codec, s, st);
    } else if st.StartPublish? || st.Turn? || st.TimerFires? || st.ReconnectFires? || st.WorkerAnswers? {
    } else {
      BrokerStepFrame(codec, s, st);
    }
  }
}
