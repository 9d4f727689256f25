/** The broker's steps keep the custody invariant. */
module MqCustodyBroker {
  import opened Counting
  import opened Json
  import opened MqClient
  import opened MqSystem
  import opened MqTokens
  import opened MqCustody
  import opened MqCustodySteps

  /** What survives any broker step that takes nothing back. */
  lemma ClientSide(codec: Codec, s: System, r: System)
    requires Good(codec, s) && Extends(s, r) && r.c == s.c
    ensures Aligned(r) && OutOk(codec, r) && TasksOk(codec, r) && Acks(codec, r)
  {
    OutExtends(codec, s, r);
    TasksExtend(codec, s, r);
    AcksExtend(codec, s, r);
  }

  lemma ShapeSame(s: System, r: System, g: nat)
    requires Shape(s) && r.c == s.c && r.conns.Keys == s.conns.Keys && |s.records| <= |r.records|
    requires g in r.conns ==> ConnShape(r, g)
    requires forall h :: h in s.conns && h != g ==> r.conns[h] == s.conns[h]
    ensures Shape(r)
  {
    forall h | h in r.conns ensures ConnShape(r, h) {
      if h != g { assert ConnShape(s, h); }
    }
  }

  lemma RoutedSame(s: System, r: System)
    requires Routed(s) && Extends(s, r) && r.c == s.c && r.conns.Keys == s.conns.Keys
    requires forall g :: g in s.conns ==> r.conns[g].outcomes == s.conns[g].outcomes
    ensures Routed(r)
  {}

  /** A broker step on connection `g` that touches neither the client nor notices and outcomes, and
      takes nothing back. */
  ghost predicate Touches(s: System, r: System, g: nat) {
    && r.c == s.c && r.conns.Keys == s.conns.Keys && Extends(s, r) && (g in r.conns ==> ConnShape(r, g))
    && (forall h :: h in s.conns && h != g ==> r.conns[h] == s.conns[h])
    && (forall h :: h in s.conns ==>
          r.conns[h].notices == s.conns[h].notices && r.conns[h].outcomes == s.conns[h].outcomes && r.conns[h].read == s.conns[h].read)
  }

  lemma TouchedKeeps(codec: Codec, s: System, r: System, g: nat)
    requires Good(codec, s) && Touches(s, r, g) && Places(codec, r)
    ensures Good(codec, r)
  {
    assert r.c == s.c && Extends(s, r) && |s.records| <= |r.records|;
    hide Aligned, Newer, OutOk, TasksOk, Routed, Honest, Acks, Places, Extends, ConnShape;
    ClientSide(codec, s, r);
    ShapeSame(s, r, g);
    hide Shape;
    NewerSame(s, r);
    HonestSame(s, r);
    RoutedSame(s, r);
  }

  // ---- Notices ------------------------------------------------------------------------------------

  lemma NoticeAppended(codec: Codec, s: System, g: nat, n: Notice)
    requires Good(codec, s) && g in s.conns
    requires n.Confirmed? ==> n.tag <= |s.conns[g].outcomes|
    ensures Good(codec, s.(conns := s.conns[g := s.conns[g].(notices := s.conns[g].notices + [n])]))
  {
    var r := s.(conns := s.conns[g := s.conns[g].(notices := s.conns[g].notices + [n])]);
    assert ConnShape(s, g);
    assert forall h :: h in s.conns ==> ConnShape(s, h);
    SameWires(codec, s, r);
    HonestAppended(s, g, n);
  }

  lemma HonestAppended(s: System, g: nat, n: Notice)
    requires Honest(s) && g in s.conns && s.conns[g].read <= |s.conns[g].notices|
    requires n.Confirmed? ==> n.tag <= |s.conns[g].outcomes|
    ensures Honest(s.(conns := s.conns[g := s.conns[g].(notices := s.conns[g].notices + [n])]))
  {
    var r := s.(conns := s.conns[g := s.conns[g].(notices := s.conns[g].notices + [n])]);
    forall h | h in r.conns ensures HonestConn(r.conns[h]) {
      assert HonestConn(s.conns[h]);
      if h == g { HonestConnAppended(s.conns[g], n); }
    }
  }

  lemma HonestConnAppended(k: Conn, n: Notice)
    requires HonestConn(k) && (n.Confirmed? ==> n.tag <= |k.outcomes|)
    ensures HonestConn(k.(notices := k.notices + [n]))
  {
    var l := k.(notices := k.notices + [n]);
    assert Quiet(l.notices, |l.notices|) ==> Quiet(k.notices, |k.notices|) by {
      if Quiet(l.notices, |l.notices|) { assert forall i :: 0 <= i < |k.notices| ==> k.notices[i] == l.notices[i]; }
    }
    forall i | 0 <= i < |l.notices| && l.notices[i].Confirmed? && Quiet(l.notices, i)
      ensures AllStored(l.outcomes, l.notices[i].tag)
    {
      assert Quiet(k.notices, i) by { assert forall j :: 0 <= j < i ==> k.notices[j] == l.notices[j]; }
    }
  }

  // ---- Publishes ------------------------------------------------------------------------------------

  lemma RouteHonest(s: System, g: nat, routable: bool, refused: bool)
    requires Honest(s) && Enabled(s, TakePublish(g, routable, refused)) && s.conns[g].read <= |s.conns[g].notices|
    ensures Honest(Route(s, g, routable, refused))
  {
    var r := Route(s, g, routable, refused);
    forall h | h in r.conns ensures HonestConn(r.conns[h]) {
      assert HonestConn(s.conns[h]);
      if h == g { RouteHonestConn(s, g, routable, refused); }
    }
  }

  lemma RouteHonestConn(s: System, g: nat, routable: bool, refused: bool)
    requires Enabled(s, TakePublish(g, routable, refused)) && HonestConn(s.conns[g])
    ensures HonestConn(Route(s, g, routable, refused).conns[g])
  {
    var k, l := s.conns[g], Route(s, g, routable, refused).conns[g];
    if refused || !routable {
      assert !l.notices[|k.notices|].Confirmed?;
    }
    forall i | 0 <= i < |l.notices| && l.notices[i].Confirmed? && Quiet(l.notices, i)
      ensures AllStored(l.outcomes, l.notices[i].tag)
    {
      assert i < |k.notices|;
      assert Quiet(k.notices, i) by { assert forall j :: 0 <= j < i ==> k.notices[j] == l.notices[j]; }
    }
  }

  /** A newly stored message is younger than every delivery handed out so far. */
  lemma RouteNewer(codec: Codec, s: System, g: nat, routable: bool, refused: bool)
    requires Good(codec, s) && Enabled(s, TakePublish(g, routable, refused))
    ensures Newer(Route(s, g, routable, refused))
  {
    NewerHas(codec, s);
    RouteOutcome(s, g, routable, refused);
    hide Good, Route;
    var r := Route(s, g, routable, refused);
    var es := s.c.out.inflight;
    if s.c.link.channels && s.c.link.generation in s.conns {
      var os := r.conns[s.c.link.generation].outcomes;
      forall i | 0 <= i < |es| && 1 <= es[i].tag <= |os| && os[es[i].tag - 1].Stored? && es[i].item.completion.Settles?
        ensures var k := es[i].item.completion;
          Delivered(r, k.generation, k.tag) && IdOf(r, k.generation, k.tag) < os[es[i].tag - 1].id
      {
        assert PubOk(codec, s, es[i].item);
      }
    }
  }

  /** Routing adds one outcome on its connection, and a stored one is the newest message. */
  lemma RouteOutcome(s: System, g: nat, routable: bool, refused: bool)
    requires Enabled(s, TakePublish(g, routable, refused))
    ensures var r := Route(s, g, routable, refused);
      && r.c == s.c && r.conns.Keys == s.conns.Keys
      && (forall h :: h in s.conns ==> r.conns[h].deliveries == s.conns[h].deliveries && r.conns[h].handed == s.conns[h].handed)
      && (forall h :: h in s.conns && h != g ==> r.conns[h].outcomes == s.conns[h].outcomes)
      && |r.conns[g].outcomes| == |s.conns[g].outcomes| + 1
      && (forall i :: 0 <= i < |s.conns[g].outcomes| ==> r.conns[g].outcomes[i] == s.conns[g].outcomes[i])
      && var last := r.conns[g].outcomes[|s.conns[g].outcomes|]; (last.Stored? ==> last.id == |s.records|)
  {
  }

  lemma NewerHas(codec: Codec, s: System)
    requires Good(codec, s)
    ensures OutOk(codec, s) && Newer(s)
  {
    hide Shape, Aligned, Newer, OutOk, TasksOk, Routed, Honest, Acks, Places;
  }

  lemma RouteKeeps(codec: Codec, s: System, g: nat, routable: bool, refused: bool)
    requires Good(codec, s) && Enabled(s, TakePublish(g, routable, refused))
    ensures Good(codec, Route(s, g, routable, refused))
  {
    var r := Route(s, g, routable, refused);
    assert ConnShape(s, g);
    assert forall h :: h in s.conns ==> ConnShape(s, h);
    assert Extends(s, r);
    ClientSide(codec, s, r);
    RouteHonest(s, g, routable, refused);
    RouteNewer(codec, s, g, routable, refused);
    RouteFrame(codec, s, g, routable, refused);
  }

  lemma RouteFrame(codec: Codec, s: System, g: nat, routable: bool, refused: bool)
    requires Good(codec, s) && Enabled(s, TakePublish(g, routable, refused))
    requires Extends(s, Route(s, g, routable, refused))
    ensures var r := Route(s, g, routable, refused); Shape(r) && Routed(r) && Places(codec, r)
  {
    var r := Route(s, g, routable, refused);
    assert ConnShape(s, g);
    ShapeSame(s, r, g);
    RouteRouted(s, g, routable, refused);
    RecordsGrow(codec, s, r);
  }

  lemma RouteRouted(s: System, g: nat, routable: bool, refused: bool)
    requires Routed(s) && Enabled(s, TakePublish(g, routable, refused)) && Extends(s, Route(s, g, routable, refused))
    ensures Routed(Route(s, g, routable, refused))
  {
    var r := Route(s, g, routable, refused);
    forall h, i | h in r.conns && 0 <= i < |r.conns[h].outcomes| && r.conns[h].outcomes[i].Stored?
      ensures i < |WireOf(r.c, h).sent| && r.conns[h].outcomes[i].id < |r.records|
      ensures var m := r.records[r.conns[h].outcomes[i].id]; WireOf(r.c, h).sent[i].queue == m.queue && WireOf(r.c, h).sent[i].body == m.body
    {
      if i < |s.conns[h].outcomes| { assert s.conns[h].outcomes[i] == r.conns[h].outcomes[i]; }
    }
  }

  /** New ready messages do not disturb the places of the others. */
  lemma RecordsGrow(codec: Codec, s: System, r: System)
    requires Places(codec, s) && Shape(s) && Extends(s, r) && r.c == s.c
    requires forall i :: 0 <= i < |s.records| ==> r.records[i].place == s.records[i].place
    requires forall i :: |s.records| <= i < |r.records| ==> r.records[i].place == Ready
    requires r.conns.Keys == s.conns.Keys
    requires forall g :: g in s.conns ==>
      r.conns[g].deliveries == s.conns[g].deliveries && r.conns[g].taken == s.conns[g].taken && r.conns[g].open == s.conns[g].open
    ensures Places(codec, r)
  {
    forall id | 0 <= id < |r.records| && r.records[id].place == Removed ensures Justified(codec, r, id) {
      GoneExtends(codec, s, r, id);
    }
    forall g, i | Open(r, g) && 0 <= i < |r.conns[g].deliveries|
      ensures r.records[r.conns[g].deliveries[i]].place == Unacked(g, i + 1) || SettleTaken(r, g, i + 1)
    {
      assert ConnShape(s, g) && Open(s, g);
      assert SettleTaken(s, g, i + 1) ==> SettleTaken(r, g, i + 1);
    }
  }

  lemma ForeignKeeps(codec: Codec, s: System, queue: string, body: string)
    requires Good(codec, s)
    ensures Good(codec, Apply(codec, s, Foreign(queue, body)))
  {
    var r := Apply(codec, s, Foreign(queue, body));
    assert forall h :: h in s.conns ==> ConnShape(s, h);
    assert forall h :: h in r.conns ==> ConnShape(r, h);
    assert Extends(s, r);
    hide Shape, Aligned, Newer, OutOk, TasksOk, Routed, Honest, Acks, Places;
    ClientSide(codec, s, r);
    NewerSame(s, r);
    HonestSame(s, r);
    RecordsGrow(codec, s, r);
    RoutedSame(s, r);
  }

  lemma GoodPlaces(codec: Codec, s: System)
    requires Good(codec, s)
    ensures Places(codec, s) && Shape(s) && Acks(codec, s)
  {
    hide Shape, Aligned, Newer, OutOk, TasksOk, Routed, Honest, Acks, Places;
  }

  // ---- Deliveries ---------------------------------------------------------------------------------

  lemma DeliverKeeps(codec: Codec, s: System, g: nat, id: nat)
    requires Good(codec, s) && Enabled(s, Deliver(g, id))
    ensures Good(codec, Apply(codec, s, Deliver(g, id)))
  {
    var r := Apply(codec, s, Deliver(g, id));
    DeliverTouches(codec, s, g, id);
    hide *;
    GoodPlaces(codec, s);
    DeliverPlaces(codec, s, g, id);
    TouchedKeeps(codec, s, r, g);
  }

  lemma DeliverTouches(codec: Codec, s: System, g: nat, id: nat)
    requires Good(codec, s) && Enabled(s, Deliver(g, id))
    ensures var r := Apply(codec, s, Deliver(g, id)); Touches(s, r, g) && Extends(s, r)
  {
    assert forall h :: h in s.conns ==> ConnShape(s, h);
    hide Aligned, Newer, OutOk, TasksOk, Routed, Honest, Acks, Places;
  }

  lemma DeliverPlaces(codec: Codec, s: System, g: nat, id: nat)
    requires Places(codec, s) && Shape(s) && Enabled(s, Deliver(g, id))
    requires Extends(s, Apply(codec, s, Deliver(g, id)))
    ensures Places(codec, Apply(codec, s, Deliver(g, id)))
  {
    var r := Apply(codec, s, Deliver(g, id));
    forall i | 0 <= i < |r.records| && r.records[i].place == Removed ensures Justified(codec, r, i) {
      GoneExtends(codec, s, r, i);
    }
    forall h, i | Open(r, h) && 0 <= i < |r.conns[h].deliveries|
      ensures r.records[r.conns[h].deliveries[i]].place == Unacked(h, i + 1) || SettleTaken(r, h, i + 1)
    {
      assert Open(s, h) && ConnShape(s, h);
      if i < |s.conns[h].deliveries| {
        assert SettleTaken(s, h, i + 1) ==> SettleTaken(r, h, i + 1);
      }
    }
  }

  lemma DropKeeps(codec: Codec, s: System, g: nat)
    requires Good(codec, s) && g in s.conns
    ensures Good(codec, DropConn(s, g))
  {
    DropTouches(codec, s, g);
    hide *;
    GoodPlaces(codec, s);
    DropPlaces(codec, s, g);
    TouchedKeeps(codec, s, DropConn(s, g), g);
  }

  lemma DropTouches(codec: Codec, s: System, g: nat)
    requires Good(codec, s) && g in s.conns
    ensures var r := DropConn(s, g); Touches(s, r, g) && Extends(s, r)
  {
    assert forall h :: h in s.conns ==> ConnShape(s, h);
    hide Aligned, Newer, OutOk, TasksOk, Routed, Honest, Acks, Places;
  }

  lemma DropPlaces(codec: Codec, s: System, g: nat)
    requires Places(codec, s) && Shape(s) && g in s.conns && Extends(s, DropConn(s, g))
    ensures Places(codec, DropConn(s, g))
  {
    var r := DropConn(s, g);
    forall i | 0 <= i < |r.records| && r.records[i].place == Removed ensures Justified(codec, r, i) {
      GoneExtends(codec, s, r, i);
    }
    forall h, i | Open(r, h) && 0 <= i < |r.conns[h].deliveries|
      ensures r.records[r.conns[h].deliveries[i]].place == Unacked(h, i + 1) || SettleTaken(r, h, i + 1)
    {
      assert h != g && Open(s, h) && ConnShape(s, h);
      assert SettleTaken(s, h, i + 1) ==> SettleTaken(r, h, i + 1);
    }
  }

  /** The next settle frame always names a delivery that is still unacknowledged, so the broker
      never sees an unknown delivery tag. */
  lemma NextSettleKnown(codec: Codec, s: System, g: nat)
    requires Good(codec, s) && Tokens(s) && Enabled(s, TakeSettle(g))
    ensures KnownTag(s, g)
  {
    var fs := WireOf(s.c, g).settles;
    var n := s.conns[g].taken;
    var t := fs[n].tag;
    SettledOnce(s, g, n, n);
    assert ConnShape(s, g);
    if SettleTaken(s, g, t) {
      var j :| 0 <= j < n && j < |fs| && fs[j].tag == t;
      SettledOnce(s, g, j, n);
      assert false;
    }
    assert s.records[s.conns[g].deliveries[t - 1]].place == Unacked(g, t - 1 + 1);
  }

  lemma SettleNextKeeps(codec: Codec, s: System, g: nat)
    requires Good(codec, s) && Tokens(s) && Enabled(s, TakeSettle(g))
    ensures Good(codec, SettleNext(s, g))
  {
    SettleTouches(codec, s, g);
    hide *;
    NextSettleKnown(codec, s, g);
    GoodPlaces(codec, s);
    SettlePlacesNext(codec, s, g);
    TouchedKeeps(codec, s, SettleNext(s, g), g);
  }

  lemma SettleTouches(codec: Codec, s: System, g: nat)
    requires Good(codec, s) && Enabled(s, TakeSettle(g))
    ensures var r := SettleNext(s, g); Touches(s, r, g) && Extends(s, r)
  {
    assert forall h :: h in s.conns ==> ConnShape(s, h);
    hide Aligned, Newer, OutOk, TasksOk, Routed, Honest, Acks, Places;
    if !KnownTag(s, g) { DropTouches(codec, s, g); }
  }

  lemma SettlePlacesNext(codec: Codec, s: System, g: nat)
    requires Places(codec, s) && Shape(s) && Acks(codec, s) && Enabled(s, TakeSettle(g)) && KnownTag(s, g)
    requires Extends(s, SettleNext(s, g))
    ensures Places(codec, SettleNext(s, g))
  {
    var r := SettleNext(s, g);
    var gone := s.conns[g].deliveries[WireOf(s.c, g).settles[s.conns[g].taken].tag - 1];
    assert AckOk(codec, s, g, WireOf(s.c, g).settles[s.conns[g].taken]);
    forall i | 0 <= i < |r.records| && r.records[i].place == Removed ensures Justified(codec, r, i) {
      hide Justified, Open;
      JustifiedExtends(codec, s, r, i) by {
        if i == gone { SettledJustifies(codec, s, g); } else { assert s.records[i].place == Removed; }
      }
    }
    SettleKeepsUnacked(codec, s, g);
    hide Extends, SettleTaken, SettleNext;
  }

  lemma SettledJustifies(codec: Codec, s: System, g: nat)
    requires Enabled(s, TakeSettle(g)) && KnownTag(s, g)
    requires AckOk(codec, s, g, WireOf(s.c, g).settles[s.conns[g].taken]) && WireOf(s.c, g).settles[s.conns[g].taken].AckFrame?
    ensures Justified(codec, s, s.conns[g].deliveries[WireOf(s.c, g).settles[s.conns[g].taken].tag - 1])
  {
  }

  lemma SettleKeepsUnacked(codec: Codec, s: System, g: nat)
    requires Places(codec, s) && Shape(s) && Enabled(s, TakeSettle(g)) && KnownTag(s, g)
    ensures var r := SettleNext(s, g);
      forall h, i :: Open(r, h) && 0 <= i < |r.conns[h].deliveries| && r.conns[h].deliveries[i] < |r.records| ==>
        r.records[r.conns[h].deliveries[i]].place == Unacked(h, i + 1) || SettleTaken(r, h, i + 1)
  {
    hide Justified;
    var r := SettleNext(s, g);
    var n := s.conns[g].taken;
    var f := WireOf(s.c, g).settles[n];
    var gone := s.conns[g].deliveries[f.tag - 1];
    forall h, i | Open(r, h) && 0 <= i < |r.conns[h].deliveries|
      ensures r.conns[h].deliveries[i] < |r.records|
      ensures r.records[r.conns[h].deliveries[i]].place == Unacked(h, i + 1) || SettleTaken(r, h, i + 1)
    {
      assert Open(s, h) && ConnShape(s, h);
      assert SettleTaken(s, h, i + 1) ==> SettleTaken(r, h, i + 1);
      if s.conns[h].deliveries[i] == gone && s.records[gone].place == Unacked(h, i + 1) {
        assert h == g && i + 1 == f.tag;
        assert WireOf(r.c, h).settles[n].tag == i + 1 && n < r.conns[h].taken;
      }
    }
  }
}
