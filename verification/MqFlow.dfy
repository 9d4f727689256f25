/** What the queue client does when nothing is in its way: it admits below its bound, publishes as
    far as the window allows, erases what is confirmed and answers for it, and after a stop does
    nothing more. */
module MqFlow {
  import opened Json
  import opened MqClient
  import opened MqSystem
  import opened MqRecovery
  import opened MqCustody
  import opened MqNoLoss
  import opened MqAnswers
  import W = MqWindow

  // ---- Publishing ------------------------------------------------------------------------------------------

  function Least(a: nat, b: nat): nat { if a <= b then a else b }

  /** How many pending publications a drain of `room` successful publishes moves. */
  function Movable(o: Outbox): nat { Least(|o.pending|, if |o.inflight| < 128 then 128 - |o.inflight| else 0) }

  /** `d` is `o` after its first `n` pending publications went out under the next `n` tags. */
  ghost predicate Moved(o: Outbox, d: Outbox, n: nat) {
    && n <= |o.pending| && d.pending == o.pending[n..] && d.nextTag == o.nextTag + n
    && |d.inflight| == |o.inflight| + n && o.inflight <= d.inflight
    && (forall i :: 0 <= i < n ==> d.inflight[|o.inflight| + i] == Entry(o.nextTag + i, o.pending[i]))
  }

  /** Wire `v` is wire `w` after the first `n` publications of `ps` were written to it. */
  ghost predicate Wrote(ps: seq<Publication>, w: seq<Outgoing>, v: seq<Outgoing>, n: nat) {
    && n <= |ps| && w <= v && |v| == |w| + n
    && (forall i :: 0 <= i < n ==> v[|w| + i] == Outgoing(ps[i].queue, ps[i].body, ps[i].completion))
  }

  lemma MovedFirst(o: Outbox, e: Outbox, d: Outbox, n: nat)
    requires Moved(o, e, 1) && Moved(e, d, n)
    ensures Moved(o, d, n + 1)
  {
    forall i | 0 <= i < n + 1 ensures d.inflight[|o.inflight| + i] == Entry(o.nextTag + i, o.pending[i]) {
      if i > 0 {
        assert d.inflight[|e.inflight| + (i - 1)] == Entry(e.nextTag + (i - 1), e.pending[i - 1]);
      } else {
        assert d.inflight[|o.inflight|] == e.inflight[|o.inflight|] == Entry(o.nextTag, o.pending[0]) by {
          assert e.inflight[|o.inflight| + 0] == Entry(o.nextTag + 0, o.pending[0]);
        }
      }
    }
    assert o.pending[1..][n..] == o.pending[n + 1..];
  }

  lemma WroteFirst(ps: seq<Publication>, w: seq<Outgoing>, x: seq<Outgoing>, v: seq<Outgoing>, n: nat)
    requires Wrote(ps, w, x, 1) && Wrote(ps[1..], x, v, n)
    ensures Wrote(ps, w, v, n + 1)
  {
    forall i | 0 <= i < n + 1 ensures v[|w| + i] == Outgoing(ps[i].queue, ps[i].body, ps[i].completion) {
      if i > 0 {
        assert v[|x| + (i - 1)] == Outgoing(ps[1..][i - 1].queue, ps[1..][i - 1].body, ps[1..][i - 1].completion);
      } else {
        assert x[|w| + 0] == Outgoing(ps[0].queue, ps[0].body, ps[0].completion);
      }
    }
  }

  ghost function SentNow(c: Client): seq<Outgoing> { WireOf(c, c.link.generation).sent }

  lemma FrontMoved(c: Client)
    requires c.out.pending != []
    ensures var e := PublishFront(c);
      && Moved(c.out, e.out, 1) && Wrote(c.out.pending, SentNow(c), SentNow(e), 1) && e.link == c.link
  {
  }

  lemma TornMoved(c: Client, torn: bool)
    requires c.out.pending != [] && !c.link.recovering && !c.link.shuttingDown
    ensures var d := ConnectionFailed(if torn then WriteSent(c, c.out.pending[0]) else c);
      && Moved(c.out, d.out, 0) && Wrote(c.out.pending, SentNow(c), SentNow(d), if torn then 1 else 0) && d.link.recovering
  {
  }

  lemma NothingMoved(c: Client)
    ensures Moved(c.out, c.out, 0) && Wrote(c.out.pending, SentNow(c), SentNow(c), 0)
  {
  }

  /** The drain loop moves as many publications as are pending, fit the window of 128 and are
      accepted, oldest first; it fails the connection exactly when a publish was refused, and then the
      refused one may have reached the wire. */
  lemma {:induction false} DrainExact(c: Client, room: nat, torn: bool)
    requires !c.link.recovering && !c.link.shuttingDown
    ensures var d, n := DrainLoop(c, room, torn), Least(room, Movable(c.out));
      && Moved(c.out, d.out, n) && (d.link.recovering <==> room < Movable(c.out))
      && Wrote(c.out.pending, SentNow(c), SentNow(d), if room < Movable(c.out) && torn then n + 1 else n)
    decreases |c.out.pending|
  {
    DrainOnce(c, room, torn);
    hide *;
    if Movable(c.out) == 0 {
      NothingMoved(c);
    } else if room == 0 {
      TornMoved(c, torn);
    } else {
      var e := PublishFront(c);
      FrontMoved(c);
      DrainExact(e, room - 1, torn);
      var d, n := DrainLoop(e, room - 1, torn), Least(room, Movable(c.out));
      MovedFirst(c.out, e.out, d.out, n - 1);
      WroteFirst(c.out.pending, SentNow(c), SentNow(e), SentNow(d), if room < Movable(c.out) && torn then n else n - 1);
    }
  }

  /** One round of the drain loop. */
  lemma DrainOnce(c: Client, room: nat, torn: bool)
    ensures Movable(c.out) == 0 ==> DrainLoop(c, room, torn) == c && Least(room, 0) == 0
    ensures Movable(c.out) > 0 ==> c.out.pending != []
    ensures Movable(c.out) > 0 && room == 0 ==>
      DrainLoop(c, room, torn) == ConnectionFailed(if torn then WriteSent(c, c.out.pending[0]) else c) && Least(0, Movable(c.out)) == 0
    ensures Movable(c.out) > 0 && room > 0 ==>
      var e := PublishFront(c);
      && DrainLoop(c, room, torn) == DrainLoop(e, room - 1, torn) && e.out.pending == c.out.pending[1..]
      && Movable(e.out) == Movable(c.out) - 1 && Least(room, Movable(c.out)) == Least(room - 1, Movable(e.out)) + 1
  {
  }

  /** A client that may publish leaves nothing waiting but for a full window or a failed publish. */
  lemma DrainsAll(c: Client, room: nat, torn: bool)
    requires c.link.producerReady && c.link.channels && !c.link.recovering && !c.link.shuttingDown
    ensures var d := DrainPending(c, room, torn);
      d.out.pending == [] || |d.out.inflight| >= 128 || d.link.recovering
  {
    DrainExact(c, room, torn);
    hide DrainLoop, Wrote;
  }

  /** Being allowed to publish, and being told that the connection is writable again, both publish what is
      pending as far as the window goes. */
  lemma Resumes(codec: Codec, s: System, st: Step)
    requires Enabled(s, st) && Serving(s.c) && !s.c.link.shuttingDown
    requires st.SelectSucceeds? || (st.Writable? && s.c.link.producerReady)
    ensures Moved(s.c.out, Apply(codec, s, st).c.out, Least(st.room, Movable(s.c.out)))
  {
    DrainExact(s.c.(link := s.c.link.(producerReady := true)), st.room, st.torn);
    DrainExact(s.c, st.room, st.torn);
    hide DrainLoop, Moved, Wrote;
  }

  // ---- Confirmations -----------------------------------------------------------------------------------------

  /** The frame that acknowledges a delivery of channel `g`, none for any other completion. */
  ghost function AckOf(k: Completion, g: nat): seq<Settle> {
    if k.Settles? && k.generation == g then [AckFrame(k.tag)] else []
  }

  /** The frames that acknowledge the deliveries of `ps` on channel `g`. */
  ghost function Acked(ps: seq<Publication>, g: nat): seq<Settle> {
    if ps == [] then []
    else AckOf(ps[0].completion, g) + Acked(ps[1..], g)
  }

  lemma {:induction false} ConfirmFrames(c: Client, i: nat, tag: nat, multiple: bool)
    requires Serving(c) && i <= |c.out.inflight|
    ensures var d, g := ConfirmLoop(c, i, tag, multiple), c.link.generation;
      && WireOf(d, g).settles == WireOf(c, g).settles + Acked(W.Covered(c.out.inflight[i..], tag, multiple), g)
      && WireOf(d, g).sent == WireOf(c, g).sent
    decreases |c.out.inflight| - i
  {
    var es, g := c.out.inflight, c.link.generation;
    ConfirmOnce(c, i, tag, multiple);
    if i == |es| {
      assert es[i..] == [];
      assert WireOf(c, g).settles + [] == WireOf(c, g).settles;
    } else {
      CoveredFrom(es, i, tag, multiple);
      hide *;
      if !Covers(tag, multiple, es[i].tag) {
        ConfirmFrames(c, i + 1, tag, multiple);
      } else {
        var c1, more := ConfirmAt(c, i), W.Covered(es[i + 1..], tag, multiple);
        W.ConfirmAtEffect(c, i);
        AckedFirst(es[i].item, more, g);
        AtFrames(c, i);
        assert c1.out.inflight[i..] == es[i + 1..];
        ConfirmFrames(c1, i, tag, multiple);
        Joined(WireOf(c, g).settles, AckOf(es[i].item.completion, g), Acked(more, g));
      }
    }
  }

  lemma Joined<T>(a: seq<T>, b: seq<T>, c: seq<T>)
    ensures a + b + c == a + (b + c)
  {
  }

  lemma ConfirmOnce(c: Client, i: nat, tag: nat, multiple: bool)
    requires i <= |c.out.inflight|
    ensures ConfirmLoop(c, i, tag, multiple) ==
      if i == |c.out.inflight| then c
      else if !Covers(tag, multiple, c.out.inflight[i].tag) then ConfirmLoop(c, i + 1, tag, multiple)
      else ConfirmLoop(ConfirmAt(c, i), i, tag, multiple)
  {
  }

  lemma CoveredFrom(es: seq<Entry>, i: nat, tag: nat, multiple: bool)
    requires i < |es|
    ensures W.Covered(es[i..], tag, multiple) ==
      if Covers(tag, multiple, es[i].tag) then [es[i].item] + W.Covered(es[i + 1..], tag, multiple)
      else W.Covered(es[i + 1..], tag, multiple)
  {
    assert es[i..][0] == es[i] && es[i..][1..] == es[i + 1..];
    assert [] + W.Covered(es[i + 1..], tag, multiple) == W.Covered(es[i + 1..], tag, multiple);
  }

  lemma AckedFirst(p: Publication, ps: seq<Publication>, g: nat)
    ensures Acked([p] + ps, g) == AckOf(p.completion, g) + Acked(ps, g)
  {
    assert ([p] + ps)[1..] == ps;
  }

  /** Erasing an entry writes the frame of its completion, if that is of the present channel. */
  lemma AtFrames(c: Client, i: nat)
    requires Serving(c) && i < |c.out.inflight|
    ensures var d, g, k := ConfirmAt(c, i), c.link.generation, c.out.inflight[i].item.completion;
      && Serving(d) && d.link == c.link && i <= |d.out.inflight| && WireOf(d, g).sent == WireOf(c, g).sent
      && WireOf(d, g).settles == WireOf(c, g).settles + AckOf(k, g)
  {
  }

  // ---- What a confirmation does, by tags --------------------------------------------------------------------------

  /** A confirmation of `tag`, alone or with everything before it, answers for this tag. */
  ghost predicate Answers(tag: nat, multiple: bool, t: nat) { t == tag || (multiple && t < tag) }

  ghost function AnsweredBy(es: seq<Entry>, tag: nat, multiple: bool): seq<Entry> {
    if es == [] then []
    else (if Answers(tag, multiple, es[0].tag) then [es[0]] else []) + AnsweredBy(es[1..], tag, multiple)
  }

  ghost function NotAnswered(es: seq<Entry>, tag: nat, multiple: bool): seq<Entry> {
    if es == [] then []
    else (if Answers(tag, multiple, es[0].tag) then [] else [es[0]]) + NotAnswered(es[1..], tag, multiple)
  }

  lemma {:induction false} ByTags(es: seq<Entry>, tag: nat, multiple: bool)
    ensures W.Covered(es, tag, multiple) == Items(AnsweredBy(es, tag, multiple))
    ensures W.Kept(es, tag, multiple) == NotAnswered(es, tag, multiple)
    ensures |AnsweredBy(es, tag, multiple)| + |NotAnswered(es, tag, multiple)| == |es|
  {
    if es != [] {
      ByTags(es[1..], tag, multiple);
      var rest := AnsweredBy(es[1..], tag, multiple);
      assert [] + rest == rest;
      assert ([es[0]] + rest)[1..] == rest;
      assert [] + Items(rest) == Items(rest);
    }
  }

  /** What is left of the client's publications once the confirmed entries are gone. */
  ghost function Left(o: Outbox, tag: nat, multiple: bool): Outbox {
    o.(inflight := NotAnswered(o.inflight, tag, multiple), outstanding := o.outstanding - |AnsweredBy(o.inflight, tag, multiple)|)
  }

  /** `r` is `c` after the confirmation of `tag`: the entries it answers for are erased and taken off the
      count, the deliveries of the present channel that they copied are acknowledged, in order, and the freed
      window is filled again from what was pending. */
  ghost predicate ConfirmDone(c: Client, r: Client, tag: nat, multiple: bool, room: nat) {
    var left, g := Left(c.out, tag, multiple), c.link.generation;
    && WireOf(r, g).settles == WireOf(c, g).settles + Acked(Items(AnsweredBy(c.out.inflight, tag, multiple)), g)
    && Moved(left, r.out, if c.link.producerReady then Least(room, Movable(left)) else 0)
    && r.out.outstanding == left.outstanding
  }

  /** The same for the loop over the entries alone. */
  ghost predicate Erased(c: Client, d: Client, tag: nat, multiple: bool) {
    && d.link == c.link && d.out == Left(c.out, tag, multiple)
    && WireOf(d, c.link.generation).settles ==
       WireOf(c, c.link.generation).settles + Acked(Items(AnsweredBy(c.out.inflight, tag, multiple)), c.link.generation)
  }

  /** A confirmation heard by a serving client is done. */
  lemma ConfirmExact(codec: Codec, s: System, room: nat, torn: bool)
    requires Enabled(s, ReadNotice(room, torn)) && Serving(s.c) && !s.c.link.shuttingDown
    requires var k := s.conns[s.c.link.generation]; k.notices[k.read].Confirmed?
    ensures var k := s.conns[s.c.link.generation]; var n := k.notices[k.read];
      ConfirmDone(s.c, Apply(codec, s, ReadNotice(room, torn)).c, n.tag, n.multiple, room)
  {
    var k := s.conns[s.c.link.generation];
    var n := k.notices[k.read];
    var c := ConfirmLoop(s.c, 0, n.tag, n.multiple);
    ConfirmedClient(s.c, n.tag, n.multiple);
    ConfirmStep(codec, s, room, torn);
    assert c.link == s.c.link && !c.link.recovering;
    hide *;
    if s.c.link.producerReady {
      ErasedDrained(s.c, c, n.tag, n.multiple, room, torn);
    } else {
      ErasedOnly(s.c, c, n.tag, n.multiple, room);
    }
  }

  lemma ErasedDrained(c: Client, d: Client, tag: nat, multiple: bool, room: nat, torn: bool)
    requires Erased(c, d, tag, multiple) && c.link.producerReady && !c.link.recovering && !c.link.shuttingDown
    ensures ConfirmDone(c, DrainLoop(d, room, torn), tag, multiple, room)
  {
    DrainExact(d, room, torn);
    DrainKeepsSettles(d, room, torn);
    hide DrainLoop, Moved, Wrote, Movable, Left, Acked, WireOf, AnsweredBy, Items;
  }

  lemma ErasedOnly(c: Client, d: Client, tag: nat, multiple: bool, room: nat)
    requires Erased(c, d, tag, multiple) && !c.link.producerReady
    ensures ConfirmDone(c, d, tag, multiple, room)
  {
    NothingMoved(d);
    hide Moved, Wrote, Movable, Left, Acked, WireOf, AnsweredBy, Items;
  }

  /** The client after the confirm loop. */
  lemma ConfirmedClient(c: Client, tag: nat, multiple: bool)
    requires Serving(c)
    ensures Erased(c, ConfirmLoop(c, 0, tag, multiple), tag, multiple)
    ensures ConfirmLoop(c, 0, tag, multiple).link == c.link
  {
    var es := c.out.inflight;
    ConfirmFrames(c, 0, tag, multiple);
    W.ConfirmEffect(c, 0, tag, multiple);
    ByTags(es, tag, multiple);
    hide ConfirmLoop, Acked, WireOf, AnsweredBy, NotAnswered, Items, W.Kept, W.Covered;
    assert es[0..] == es && es[..0] + W.Kept(es, tag, multiple) == W.Kept(es, tag, multiple);
  }

  lemma ConfirmStep(codec: Codec, s: System, room: nat, torn: bool)
    requires Enabled(s, ReadNotice(room, torn)) && Serving(s.c) && !s.c.link.shuttingDown
    requires var k := s.conns[s.c.link.generation]; k.notices[k.read].Confirmed?
    ensures var k := s.conns[s.c.link.generation]; var n := k.notices[k.read];
      var c := ConfirmLoop(s.c, 0, n.tag, n.multiple);
      c.link == s.c.link ==>
        Apply(codec, s, ReadNotice(room, torn)).c == if s.c.link.producerReady then DrainLoop(c, room, torn) else c
  {
    hide ConfirmLoop, DrainLoop;
  }

  lemma {:induction false} DrainKeepsSettles(c: Client, room: nat, torn: bool)
    ensures var d := DrainLoop(c, room, torn);
      WireOf(d, c.link.generation).settles == WireOf(c, c.link.generation).settles && d.out.outstanding == c.out.outstanding
    decreases |c.out.pending|
  {
    if c.out.pending != [] && |c.out.inflight| < MAX_INFLIGHT && room > 0 { DrainKeepsSettles(PublishFront(c), room - 1, torn); }
  }

  // ---- Admission -----------------------------------------------------------------------------------------------

  /** A publish call that is not interrupted is admitted exactly below the bound of 10000: it counts one
      more and leaves the item at the end of the loop. */
  lemma Admission(codec: Codec, s: System, queue: string, body: string, r: System)
    requires s.c.link.alive
    requires var p := |s.c.tasks.publishers|;
      Runs(codec, s, [StartPublish(queue, body), Turn(p, false), Turn(p, false)], r)
    ensures r.c.out == s.c.out.(outstanding := s.c.out.outstanding + if s.c.out.outstanding < 10000 then 1 else 0)
    ensures r.c.tasks.loop == s.c.tasks.loop +
      if s.c.out.outstanding < 10000 then [Enqueue(Publication(queue, body, NoCompletion))] else []
  {
    var p := |s.c.tasks.publishers|;
    var item := Publication(queue, body, NoCompletion);
    var st := [StartPublish(queue, body), Turn(p, false), Turn(p, false)];
    var s1 := Apply(codec, s, st[0]);
    var s2 := Apply(codec, s1, st[1]);
    assert st[1..] == [Turn(p, false), Turn(p, false)] && st[1..][1..] == [Turn(p, false)] && st[1..][1..][1..] == [];
    assert s1.c.tasks.publishers[p] == Loaded(s.c.out.outstanding, item);
    assert Runs(codec, s1, st[1..], r) && Runs(codec, s2, st[1..][1..], r);
    assert Runs(codec, Apply(codec, s2, Turn(p, false)), st[1..][1..][1..], r);
    assert r == Apply(codec, s2, Turn(p, false));
  }

  /** A replacement that is refused at the bound sends the original back to its queue. */
  lemma RefusedGoesBack(codec: Codec, s: System, p: nat, spurious: bool, count: int, item: Publication)
    requires Enabled(s, Turn(p, spurious)) && s.c.tasks.publishers[p] == Loaded(count, item) && count >= 10000
    requires s.c.link.alive && s.c.link.channels && item.completion.Settles? && item.completion.generation == s.c.link.generation
    ensures var r, g := Apply(codec, s, Turn(p, spurious)).c, s.c.link.generation;
      && WireOf(r, g).settles == WireOf(s.c, g).settles + [RejectFrame(item.completion.tag)]
      && r.tasks.publishers == s.c.tasks.publishers[p := Done] && r.out == s.c.out
  {
  }

  // ---- Replacing a delivery --------------------------------------------------------------------------------------

  /** An idle client with room: nothing in its loop, nothing pending, a window and a bound not reached. */
  ghost predicate Idle(c: Client) {
    && Serving(c) && !c.link.shuttingDown && c.link.producerReady
    && c.tasks.loop == [] && c.out.pending == [] && |c.out.inflight| < 128 && c.out.outstanding < 10000
  }

  /** The answer of a worker, and its turn in the loop: a timer is set. */
  lemma AnswerSetsTimer(codec: Codec, s: System, w: nat, result: Disposition)
    requires Idle(s.c) && w < |s.c.tasks.workers| && s.c.tasks.workers[w].open && result != Ack
    requires s.c.tasks.workers[w].generation == s.c.link.generation
    ensures var s1 := Apply(codec, s, WorkerAnswers(w, result)); Enabled(s1, RunLoop(0, false))
    ensures var k := s.c.tasks.workers[w]; var x := Replacement(codec, s.c.queueName, result, k.body);
      Apply(codec, Apply(codec, s, WorkerAnswers(w, result)), RunLoop(0, false)).c ==
        s.c.(tasks := s.c.tasks.(workers := s.c.tasks.workers[w := k.(open := false)],
             timers := s.c.tasks.timers + [Timer(true, x.delay, Publication(x.queue, x.body, Settles(k.generation, k.tag)))]))
  {
    hide Replacement;
  }

  /** The timer fires and its publish is admitted without interruption. */
  lemma TimerAdmits(codec: Codec, s: System, x: Publication, delay: nat)
    requires Idle(s.c) && s.c.tasks.timers != [] && x.completion.Settles? && x.completion.generation == s.c.link.generation
    requires s.c.tasks.timers[|s.c.tasks.timers| - 1] == Timer(true, delay, x)
    ensures var i, p := |s.c.tasks.timers| - 1, |s.c.tasks.publishers|;
      && Enabled(s, TimerFires(i)) && Enabled(Apply(codec, s, TimerFires(i)), Turn(p, false))
      && Enabled(Apply(codec, Apply(codec, s, TimerFires(i)), Turn(p, false)), Turn(p, false))
      && var r := Apply(codec, Apply(codec, Apply(codec, s, TimerFires(i)), Turn(p, false)), Turn(p, false)).c;
        && r.tasks.loop == [Enqueue(x)] && r.out == s.c.out.(outstanding := s.c.out.outstanding + 1)
        && r.link == s.c.link && r.wires == s.c.wires && r.queueName == s.c.queueName
  {
  }

  /** The admitted item is the next publish on the channel. */
  lemma ItemGoesOut(codec: Codec, s: System, x: Publication)
    requires Serving(s.c) && !s.c.link.shuttingDown && s.c.link.producerReady
    requires s.c.tasks.loop == [Enqueue(x)] && s.c.out.pending == [] && |s.c.out.inflight| < 128
    ensures var r := Apply(codec, s, RunLoop(1, false)).c;
      && SentNow(r) == SentNow(s.c) + [Outgoing(x.queue, x.body, x.completion)]
      && r.out.inflight == s.c.out.inflight + [Entry(s.c.out.nextTag, x)] && r.out.pending == []
  {
    var c1 := s.c.(tasks := s.c.tasks.(loop := []), out := s.c.out.(pending := [x]));
    RunsItem(codec, s, x);
    DrainExact(c1, 1, false);
    var d := DrainLoop(c1, 1, false);
    assert Movable(c1.out) == 1 && SentNow(c1) == SentNow(s.c);
    hide Apply, DrainLoop, SentNow;
    DrainLink(c1, 1, false);
    assert d.out.inflight[|c1.out.inflight| + 0] == Entry(c1.out.nextTag + 0, x);
    assert SentNow(d)[|SentNow(c1)| + 0] == Outgoing(x.queue, x.body, x.completion);
    assert SentNow(d) == SentNow(c1) + [Outgoing(x.queue, x.body, x.completion)];
  }

  lemma RunsItem(codec: Codec, s: System, x: Publication)
    requires Serving(s.c) && !s.c.link.shuttingDown && s.c.link.producerReady
    requires s.c.tasks.loop == [Enqueue(x)] && s.c.out.pending == []
    ensures Apply(codec, s, RunLoop(1, false)).c ==
      DrainLoop(s.c.(tasks := s.c.tasks.(loop := []), out := s.c.out.(pending := [x])), 1, false)
  {
    hide DrainLoop;
    assert s.c.tasks.loop[1..] == [] && [] + [x] == [x];
  }

  /** Undisturbed, a delivery that was not acknowledged goes out again as its replacement, which will
      settle it; nothing else is published, and no frame is written before that. */
  lemma ReplacementGoesOut(codec: Codec, s: System, w: nat, result: Disposition, r: System)
    requires Idle(s.c) && w < |s.c.tasks.workers| && s.c.tasks.workers[w].open && result != Ack
    requires s.c.tasks.workers[w].generation == s.c.link.generation
    requires var i, p := |s.c.tasks.timers|, |s.c.tasks.publishers|;
      Runs(codec, s, [WorkerAnswers(w, result), RunLoop(0, false), TimerFires(i), Turn(p, false), Turn(p, false), RunLoop(1, false)], r)
    ensures var k := s.c.tasks.workers[w]; var x := Replacement(codec, s.c.queueName, result, k.body);
      SentNow(r.c) == SentNow(s.c) + [Outgoing(x.queue, x.body, Settles(k.generation, k.tag))]
  {
    var i, p, k := |s.c.tasks.timers|, |s.c.tasks.publishers|, s.c.tasks.workers[w];
    var x := Replacement(codec, s.c.queueName, result, k.body);
    var item := Publication(x.queue, x.body, Settles(k.generation, k.tag));
    AnswerSetsTimer(codec, s, w, result);
    var s1 := Apply(codec, s, WorkerAnswers(w, result));
    var s2 := Apply(codec, s1, RunLoop(0, false));
    TimerAdmits(codec, s2, item, x.delay);
    var s3 := Apply(codec, s2, TimerFires(i));
    var s4 := Apply(codec, s3, Turn(p, false));
    var s5 := Apply(codec, s4, Turn(p, false));
    ItemGoesOut(codec, s5, item);
    hide *;
    SixSteps(codec, s, WorkerAnswers(w, result), RunLoop(0, false), TimerFires(i), Turn(p, false), RunLoop(1, false), r);
    assert SentNow(s5.c) == SentNow(s.c) by { SameWire(s.c, s5.c); }
  }

  lemma SameWire(c: Client, d: Client)
    requires d.wires == c.wires && d.link == c.link
    ensures SentNow(d) == SentNow(c)
  {
  }

  lemma SixSteps(codec: Codec, s: System, a: Step, b: Step, c: Step, d: Step, e: Step, r: System)
    requires Runs(codec, s, [a, b, c, d, d, e], r)
    ensures Enabled(s, a)
    ensures var s1 := Apply(codec, s, a); Enabled(s1, b)
    ensures var s2 := Apply(codec, Apply(codec, s, a), b); Enabled(s2, c)
    ensures var s3 := Apply(codec, Apply(codec, Apply(codec, s, a), b), c);
      && Enabled(s3, d) && Enabled(Apply(codec, s3, d), d)
      && Enabled(Apply(codec, Apply(codec, s3, d), d), e)
      && r == Apply(codec, Apply(codec, Apply(codec, s3, d), d), e)
  {
    hide Apply, Enabled;
    assert [a, b, c, d, d, e][1..] == [b, c, d, d, e] && [b, c, d, d, e][1..] == [c, d, d, e];
    assert [c, d, d, e][1..] == [d, d, e] && [d, d, e][1..] == [d, e] && [d, e][1..] == [e] && [e][1..] == [];
    assert Runs(codec, Apply(codec, s, a), [b, c, d, d, e], r);
    var s2 := Apply(codec, Apply(codec, s, a), b);
    assert Runs(codec, s2, [c, d, d, e], r);
    var s3 := Apply(codec, s2, c);
    assert Runs(codec, s3, [d, d, e], r);
    assert Runs(codec, Apply(codec, s3, d), [d, e], r);
    assert Runs(codec, Apply(codec, Apply(codec, s3, d), d), [e], r);
    assert Runs(codec, Apply(codec, Apply(codec, Apply(codec, s3, d), d), e), [], r);
  }

  // ---- What comes too late --------------------------------------------------------------------------------------------

  /** An answer for another channel, or during a recovery, is dropped: nothing is written, published or set. */
  lemma LateAnswer(codec: Codec, s: System, room: nat, torn: bool)
    requires s.c.tasks.loop != [] && s.c.tasks.loop[0].Complete?
    requires s.c.tasks.loop[0].generation != s.c.link.generation || !s.c.link.channels || s.c.link.recovering
    ensures Apply(codec, s, RunLoop(room, torn)).c == s.c.(tasks := s.c.tasks.(loop := s.c.tasks.loop[1..]))
  {
  }

  /** A retry timer of another channel only expires. */
  lemma LateTimer(codec: Codec, s: System, i: nat)
    requires Enabled(s, TimerFires(i)) && s.c.tasks.timers[i].item.completion.generation != s.c.link.generation
    ensures Apply(codec, s, TimerFires(i)).c ==
      s.c.(tasks := s.c.tasks.(timers := s.c.tasks.timers[i := s.c.tasks.timers[i].(armed := false)]))
  {
  }

  /** What the broker says during a recovery is not heard. */
  lemma LateNotice(codec: Codec, s: System, room: nat, torn: bool)
    requires Enabled(s, ReadNotice(room, torn)) && s.c.link.recovering
    ensures Apply(codec, s, ReadNotice(room, torn)).c == s.c
  {
    hide ConfirmLoop, DrainLoop;
  }

  // ---- After a stop ------------------------------------------------------------------------------------------------

  /** A client that has been stopped and has no connection. */
  ghost predicate Off(c: Client) { !c.link.alive && c.link.shuttingDown && !c.link.connection && !c.link.channels }

  lemma OffStep(codec: Codec, s: System, st: Step)
    requires Off(s.c) && Enabled(s, st)
    ensures Off(Apply(codec, s, st).c) && Apply(codec, s, st).c.wires == s.c.wires
  {
    hide DrainLoop, ConfirmLoop, Requeue, KnownTag;
  }

  /** Once stopped, a client opens no connection, publishes nothing and settles nothing, whatever its
      timers, workers and publishers still do. */
  lemma {:induction false} StopIsFinal(codec: Codec, s: System, steps: seq<Step>, r: System)
    requires Enabled(s, StopClient) && Runs(codec, Apply(codec, s, StopClient), steps, r)
    ensures Off(r.c) && r.c.wires == s.c.wires
  {
    OffRun(codec, Apply(codec, s, StopClient), steps, r);
  }

  lemma {:induction false} OffRun(codec: Codec, s: System, steps: seq<Step>, r: System)
    requires Off(s.c) && Runs(codec, s, steps, r)
    ensures Off(r.c) && r.c.wires == s.c.wires
    decreases |steps|
  {
    hide Apply, Enabled, Off;
    if steps != [] {
      OffStep(codec, s, steps[0]);
      OffRun(codec, Apply(codec, s, steps[0]), steps[1..], r);
    }
  }

  /** Stopping in any reachable state leaves no reconnect timer. */
  lemma StopCancels(codec: Codec, s: System, steps: seq<Step>, r: System)
    requires Init(s) && Runs(codec, s, steps, r) && Enabled(r, StopClient)
    ensures Apply(codec, r, StopClient).c.link.reconnectTimers == []
  {
    RecoveryAlways(codec, s, steps, r);
    hide Runs, Init;
  }
}
