/** When a borrower gets a connection, which one, and how many there are. */
module DbLeases {
  import opened Optional
  import opened Recency
  import opened DbPool

  /** How a connection stood when it was last pinged. */
  datatype Pinged = Pinged(connection: nat, alive: bool)

  /** The pings of one checkout in order, up to the first that succeeds: the connection as it is, the same
      one after reconnecting, and a new one. A reconnect or creation that fails makes no ping; here it
      counts as one that fails. */
  ghost function Pings(first: nat, spare: nat, p: Probe): seq<Pinged> {
    if p.pingOk then [Pinged(first, true)]
    else if p.reconnectOk then [Pinged(first, false), Pinged(first, true)]
    else [Pinged(first, false), Pinged(first, false), Pinged(spare, p.replaceOk && p.replacementOk)]
  }

  /** A connection is handed out exactly if there is one to begin with and one of the three checks
      succeeds, and it is the one whose ping, the last one made, succeeded. */
  lemma HandedExactly(held: Option<nat>, created: nat, p: Probe)
    ensures var r := Prepare(held, created, p);
      var first := if held.Some? then held.value else created;
      var spare := if held.Some? then created else created + 1;
      var pings := Pings(first, spare, p);
      && (r.0.Some? <==> (held.Some? || p.createOk) && (p.pingOk || p.reconnectOk || (p.replaceOk && p.replacementOk)))
      && (r.0.Some? ==> pings[|pings| - 1] == Pinged(r.0.value, true))
  {
  }

  /** In the pool: a checkout that ends adds its connection to the leases and takes no slot, or frees its
      slot and lends nothing. */
  lemma FinishExactly(w: World, b: nat, p: Probe)
    requires Enabled(w, DoFinish(b, p))
    ensures var v := Apply(w, DoFinish(b, p));
      var good := (w.checkouts[b].Some? || p.createOk) && (p.pingOk || p.reconnectOk || (p.replaceOk && p.replacementOk));
      && v.checkouts == w.checkouts - {b} && v.state.idle == w.state.idle
      && v.state.slots == w.state.slots - (if good then 0 else 1)
      && (if good then exists c: nat :: v.leases == w.leases + {c} && (w.checkouts[b] == Some(c) || w.created <= c < v.created)
          else v.leases == w.leases)
  {
    HandedExactly(w.checkouts[b], w.created, p);
    Handed(w, b, p);
    var r := Prepare(w.checkouts[b], w.created, p);
    hide Prepare;
    if r.0.Some? { assert Apply(w, DoFinish(b, p)).leases == w.leases + {r.0.value}; }
  }

  /** The pool starts with exactly the connections asked for, all idle and all new, and only once; a
      failed start changes nothing. */
  lemma StartExactly(w: World, size: nat, builds: bool)
    ensures var v := Apply(w, DoInit(size, builds)); var s := v.state;
      if !w.state.initialized && !w.state.stopping && size > 0 && builds then
        && s.initialized && s.target == size && s.slots == size && |s.idle| == size
        && (forall i :: 0 <= i < size ==> s.idle[i] == w.created + i) && v.created == w.created + size
      else v == w
  {
  }

  /** Connections are lent in the order in which they came back. */
  lemma OldestFirst(w: World, c: nat, d: nat, b: nat)
    requires !w.state.stopping && w.state.initialized && w.state.idle == [] && c in w.leases && d in w.leases && c != d && b !in w.checkouts
    ensures var w1 := Apply(w, DoReturn(c));
      && Enabled(w1, DoReturn(d))
      && var w2 := Apply(w1, DoReturn(d));
        Enabled(w2, DoReserve(b)) && Holding(Apply(w2, DoReserve(b)), b, c) && Apply(w2, DoReserve(b)).state.idle == [d]
  {
    assert [c] + [d] == [c, d] && [c, d][1..] == [d];
  }

  /** With none idle a borrower takes a free slot, to be filled by a connection of its own. */
  lemma EmptySlot(w: World, b: nat)
    requires Enabled(w, DoReserve(b)) && w.state.idle == []
    ensures var v := Apply(w, DoReserve(b)); v.checkouts == w.checkouts[b := None] && v.state.slots == w.state.slots + 1
  {
  }

  /** Once stopped, a pool lends nothing more, keeps nothing idle, and what comes back is given up. */
  lemma {:induction false} StoppedForGood(w: World, step: Step)
    requires w.state.stopping && w.state.idle == [] && Enabled(w, step)
    ensures var v := Apply(w, step);
      && v.state.stopping && v.state.idle == [] && !step.DoReserve? && v.state.slots <= w.state.slots
      && (step.DoReturn? ==> v.state.slots == w.state.slots - 1)
  {
  }

  lemma StopEmpties(w: World)
    ensures var v := Apply(w, DoStop); v.state.stopping && v.state.idle == [] && v.state.slots == w.state.slots - |w.state.idle|
  {
  }
}
