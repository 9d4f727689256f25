/** The in-memory session map with lazy expiry, and the eager map it behaves as. `S` is the type of
    session objects, compared by identity. */
module SessionStore {
  import opened Finite

  /** Clock ticks in a second of session lifetime. */
  const SECOND: int := 1_000_000_000

  datatype Entry<S> = Entry(session: S, age: int, expiry: int)

  type Store<S> = map<string, Entry<S>>

  predicate Alive<S>(e: Entry<S>, now: int) { now < e.expiry }

  function Refreshed<S>(e: Entry<S>, now: int): Entry<S> { e.(expiry := now + e.age * SECOND) }

  predicate Holds<S(==)>(m: Store<S>, id: string, s: S) { id in m && m[id].session == s }

  // ---- The lazy map -------------------------------------------------------------------------------------------------

  /** The calls of the storage, and a refresh of a session object from outside it. */
  datatype Op<S> =
    | Admit(id: string, entry: Entry<S>)
    | Load(id: string)
    | LoadAndRefresh(id: string)
    | Remove(id: string)
    | UpdateExisting(id: string, session: S)
    | CleanExpired
    | Refresh(id: string, session: S)

  datatype Answer<S> = Done | Flag(ok: bool) | Found(session: S) | NotFound

  datatype Outcome<S> = Outcome(store: Store<S>, answer: Answer<S>)

  function Live<S>(m: Store<S>, now: int): (r: Store<S>)
    ensures r.Keys <= m.Keys && forall k :: k in m && Alive(m[k], now) ==> k in r && r[k] == m[k]
  {
    map k | k in m && Alive(m[k], now) :: m[k]
  }

  /** A full map is swept. */
  function Room<S>(m: Store<S>, capacity: nat, now: int): Store<S> { if |m| >= capacity then Live(m, now) else m }

  function DoAdmit<S(==)>(m: Store<S>, capacity: nat, id: string, e: Entry<S>, now: int): Outcome<S> {
    if Holds(m, id, e.session) then Outcome(m, Flag(true))
    else if id in m && Alive(m[id], now) then Outcome(m, Flag(false))
    else
      var m2 := Room(m - {id}, capacity, now);
      if |m2| >= capacity then Outcome(m2, Flag(false)) else Outcome(m2[id := e], Flag(true))
  }

  function DoLoad<S>(m: Store<S>, id: string, now: int, refresh: bool): Outcome<S> {
    if id !in m then Outcome(m, NotFound)
    else if !Alive(m[id], now) then Outcome(m - {id}, NotFound)
    else Outcome(if refresh then m[id := Refreshed(m[id], now)] else m, Found(m[id].session))
  }

  function DoUpdate<S(==)>(m: Store<S>, id: string, s: S, now: int): Outcome<S> {
    if !Holds(m, id, s) then Outcome(m, Flag(false))
    else if !Alive(m[id], now) then Outcome(m - {id}, Flag(false))
    else Outcome(m, Flag(true))
  }

  function DoRefresh<S(==)>(m: Store<S>, id: string, s: S, now: int): Store<S> {
    if Holds(m, id, s) then m[id := Refreshed(m[id], now)] else m
  }

  function Perform<S(==)>(m: Store<S>, capacity: nat, op: Op<S>, now: int): Outcome<S> {
    match op
    case Admit(id, e) => DoAdmit(m, capacity, id, e, now)
    case Load(id) => DoLoad(m, id, now, false)
    case LoadAndRefresh(id) => DoLoad(m, id, now, true)
    case Remove(id) => Outcome(m - {id}, Done)
    case UpdateExisting(id, s) => DoUpdate(m, id, s, now)
    case CleanExpired => Outcome(Live(m, now), Done)
    case Refresh(id, s) => Outcome(DoRefresh(m, id, s, now), Done)
  }

  // ---- The eager map ------------------------------------------------------------------------------------------------

  /** The same calls on a map that holds live sessions only and never looks at the clock to answer. */
  function Eager<S(==)>(m: Store<S>, capacity: nat, op: Op<S>, now: int): Outcome<S> {
    match op
    case Admit(id, e) =>
      if id in m then Outcome(m, Flag(m[id].session == e.session))
      else if |m| < capacity then Outcome(m[id := e], Flag(true))
      else Outcome(m, Flag(false))
    case Load(id) => Outcome(m, if id in m then Found(m[id].session) else NotFound)
    case LoadAndRefresh(id) =>
      if id in m then Outcome(m[id := Refreshed(m[id], now)], Found(m[id].session)) else Outcome(m, NotFound)
    case Remove(id) => Outcome(m - {id}, Done)
    case UpdateExisting(id, s) => Outcome(m, Flag(Holds(m, id, s)))
    case CleanExpired => Outcome(m, Done)
    case Refresh(id, s) => Outcome(DoRefresh(m, id, s, now), Done)
  }

  /** An object has one expiry time, so admitting one that is stored brings the stored time. */
  predicate Consistent<S(==)>(m: Store<S>, op: Op<S>) {
    op.Admit? && Holds(m, op.id, op.entry.session) ==> m[op.id] == op.entry
  }

  /** Refreshing an object whose expired entry was not swept yet brings that entry back. */
  predicate Revives<S(==)>(m: Store<S>, op: Op<S>, now: int) {
    op.Refresh? && Holds(m, op.id, op.session) && !Alive(m[op.id], now) && Alive(Refreshed(m[op.id], now), now)
  }

  lemma FewerEntries<S>(a: Store<S>, b: Store<S>)
    requires a.Keys <= b.Keys
    ensures |a| <= |b| && (a.Keys != b.Keys ==> |a| < |b|)
  {
    Fewer(a.Keys, b.Keys);
  }

  lemma LiveWithout<S>(m: Store<S>, id: string, now: int)
    ensures Live(m - {id}, now) == Live(m, now) - {id}
    ensures id in m && !Alive(m[id], now) ==> Live(m - {id}, now) == Live(m, now)
  {
  }

  lemma LiveWith<S>(m: Store<S>, id: string, e: Entry<S>, now: int)
    ensures Live(m[id := e], now) == if Alive(e, now) then Live(m, now)[id := e] else Live(m, now) - {id}
  {
  }

  lemma LiveTwice<S>(m: Store<S>, now: int)
    ensures Live(Live(m, now), now) == Live(m, now)
  {
  }

  /** A sweep changes no live session, and there is room exactly if the live ones leave some. */
  lemma RoomLive<S>(m: Store<S>, capacity: nat, now: int)
    ensures var r, live := Room(m, capacity, now), Live(m, now);
      Live(r, now) == live && (|r| >= capacity <==> |live| >= capacity)
  {
    LiveTwice(m, now);
    FewerEntries(Live(m, now), m);
  }

  /** Where the name is free or its entry expired: what is there counts for nothing. */
  lemma AdmitFresh<S>(m: Store<S>, capacity: nat, id: string, e: Entry<S>, now: int)
    requires |m| <= capacity && !Holds(m, id, e.session) && !(id in m && Alive(m[id], now))
    ensures var o, live := DoAdmit(m, capacity, id, e, now), Live(m, now);
      && id !in live && o.answer == Flag(|live| < capacity)
      && Live(o.store, now) == if |live| < capacity then Live(live[id := e], now) else live
  {
    var live, m1 := Live(m, now), m - {id};
    LiveTwice(m, now);
    LiveWithout(m, id, now);
    assert live - {id} == live && Live(m1, now) == live;
    RoomLive(m1, capacity, now);
    hide Live, Alive, Room;
    LiveWith(Room(m1, capacity, now), id, e, now);
    LiveWith(live, id, e, now);
  }

  /** Admission answers as the eager map does and leaves the same live sessions. */
  lemma AdmitRefines<S>(m: Store<S>, capacity: nat, id: string, e: Entry<S>, now: int)
    requires |m| <= capacity && (Holds(m, id, e.session) ==> m[id] == e)
    ensures var lazy, eager := DoAdmit(m, capacity, id, e, now), Eager(Live(m, now), capacity, Op.Admit(id, e), now);
      lazy.answer == eager.answer && Live(lazy.store, now) == Live(eager.store, now)
  {
    var live := Live(m, now);
    LiveTwice(m, now);
    if Holds(m, id, e.session) {
      LiveWith(live, id, e, now);
      assert Alive(e, now) || live - {id} == live;
      FewerEntries(live, m);
    } else if !(id in m && Alive(m[id], now)) {
      AdmitFresh(m, capacity, id, e, now);
      hide DoAdmit, Live;
    }
  }

  /** Every call answers as on the eager map and leaves the same live sessions; a refresh from
      outside does so exactly when it does not revive an expired entry. */
  lemma StepRefines<S>(m: Store<S>, capacity: nat, op: Op<S>, now: int)
    requires |m| <= capacity && Consistent(m, op)
    ensures var lazy, eager := Perform(m, capacity, op, now), Eager(Live(m, now), capacity, op, now);
      && lazy.answer == eager.answer
      && (Live(lazy.store, now) == Live(eager.store, now) <==> !Revives(m, op, now))
  {
    var live := Live(m, now);
    LiveTwice(m, now);
    match op {
      case Admit(id, e) => AdmitRefines(m, capacity, id, e, now);
      case Load(id) => LiveWithout(m, id, now);
      case LoadAndRefresh(id) =>
        LiveWithout(m, id, now);
        if id in live {
          LiveWith(m, id, Refreshed(m[id], now), now);
          LiveWith(live, id, Refreshed(m[id], now), now);
        }
      case Remove(id) => LiveWithout(m, id, now); LiveWithout(live, id, now);
      case UpdateExisting(id, s) => LiveWithout(m, id, now);
      case CleanExpired =>
      case Refresh(id, s) => RefreshRefines(m, capacity, id, s, now);
    }
  }

  lemma RefreshRefines<S>(m: Store<S>, capacity: nat, id: string, s: S, now: int)
    ensures var op: Op<S> := Op.Refresh(id, s); var live := Live(m, now);
      Live(DoRefresh(m, id, s, now), now) == Live(DoRefresh(live, id, s, now), now) <==> !Revives(m, op, now)
  {
    var live := Live(m, now);
    LiveTwice(m, now);
    if Holds(m, id, s) {
      var e := Refreshed(m[id], now);
      LiveWith(m, id, e, now);
      LiveWith(live, id, e, now);
      if !Alive(m[id], now) {
        assert id !in live && live - {id} == live;
        assert Alive(e, now) ==> id in live[id := e];
      }
    }
  }

  /** A one-second session, expired and unswept, refreshed by its holder: back in the lazy map, gone
      from the eager one. */
  lemma RevivedEntry()
    ensures var m: Store<int> := map["a" := Entry(7, 1, 10)];
      var op: Op<int> := Op.Refresh("a", 7);
      && Perform(Perform(m, 1, op, 20).store, 1, Op.Load("a"), 20).answer == Found(7)
      && Eager(Eager(Live(m, 20), 1, op, 20).store, 1, Op.Load("a"), 20).answer == NotFound
  {
    var m: Store<int> := map["a" := Entry(7, 1, 10)];
    assert "a" !in Live(m, 20);
    assert Refreshed(m["a"], 20) == Entry(7, 1, 20 + SECOND);
  }

  // ---- Runs -----------------------------------------------------------------------------------------------------------

  datatype Timed<S> = Timed(op: Op<S>, at: int)

  /** Time does not run backwards. */
  predicate Monotone<S>(ops: seq<Timed<S>>, start: int) {
    (forall i :: 0 <= i < |ops| ==> start <= ops[i].at) &&
    forall i, j :: 0 <= i < j < |ops| ==> ops[i].at <= ops[j].at
  }

  function Run<S(==)>(m: Store<S>, capacity: nat, ops: seq<Timed<S>>): (Store<S>, seq<Answer<S>>)
    decreases |ops|
  {
    if ops == [] then (m, [])
    else
      var o := Perform(m, capacity, ops[0].op, ops[0].at);
      var r := Run(o.store, capacity, ops[1..]);
      (r.0, [o.answer] + r.1)
  }

  /** The eager map drops what has expired before each call. */
  function RunEager<S(==)>(m: Store<S>, capacity: nat, ops: seq<Timed<S>>): (Store<S>, seq<Answer<S>>)
    decreases |ops|
  {
    if ops == [] then (m, [])
    else
      var o := Eager(Live(m, ops[0].at), capacity, ops[0].op, ops[0].at);
      var r := RunEager(o.store, capacity, ops[1..]);
      (r.0, [o.answer] + r.1)
  }

  /** Objects have one expiry time, and no expired entry is refreshed from outside. */
  predicate Regular<S(==)>(m: Store<S>, capacity: nat, ops: seq<Timed<S>>)
    decreases |ops|
  {
    ops != [] ==>
      && Consistent(m, ops[0].op) && !Revives(m, ops[0].op, ops[0].at)
      && Regular(Perform(m, capacity, ops[0].op, ops[0].at).store, capacity, ops[1..])
  }

  lemma Bounded<S>(m: Store<S>, capacity: nat, op: Op<S>, now: int)
    requires |m| <= capacity
    ensures |Perform(m, capacity, op, now).store| <= capacity
  {
    var r := Perform(m, capacity, op, now).store;
    if r.Keys <= m.Keys {
      FewerEntries(r, m);
    } else {
      assert op.Admit?;
      FewerEntries(m - {op.id}, m);
      FewerEntries(Live(m - {op.id}, now), m);
    }
  }

  lemma LiveLater<S>(m: Store<S>, n: Store<S>, before: int, now: int)
    requires before <= now && Live(m, before) == Live(n, before)
    ensures Live(m, now) == Live(n, now)
  {
    LiveStill(m, before, now);
    LiveStill(n, before, now);
  }

  lemma LiveStill<S>(m: Store<S>, before: int, now: int)
    requires before <= now
    ensures Live(Live(m, before), now) == Live(m, now)
  {
  }

  /** Over every regular run with monotone time, lazy and eager expiry give the same answers and end
      with the same live sessions. */
  lemma {:induction false} RunRefines<S>(m: Store<S>, n: Store<S>, capacity: nat, ops: seq<Timed<S>>, start: int)
    requires |m| <= capacity && Live(m, start) == Live(n, start) && Monotone(ops, start) && Regular(m, capacity, ops)
    ensures var lazy, eager := Run(m, capacity, ops), RunEager(n, capacity, ops);
      && lazy.1 == eager.1 && |lazy.0| <= capacity
      && (var end := if ops == [] then start else ops[|ops| - 1].at; Live(lazy.0, end) == Live(eager.0, end))
    decreases |ops|
  {
    if ops != [] {
      RegularStep(m, capacity, ops);
      MonotoneStep(ops, start);
      RunStep(m, capacity, ops);
      RunEagerStep(n, capacity, ops);
      hide *;
      var op, now := ops[0].op, ops[0].at;
      LiveLater(m, n, start, now);
      StepRefines(m, capacity, op, now);
      Bounded(m, capacity, op, now);
      var m1, n1 := Perform(m, capacity, op, now).store, Eager(Live(n, now), capacity, op, now).store;
      RunRefines(m1, n1, capacity, ops[1..], now);
    }
  }

  lemma RunStep<S>(m: Store<S>, capacity: nat, ops: seq<Timed<S>>)
    requires ops != []
    ensures var o := Perform(m, capacity, ops[0].op, ops[0].at); var r := Run(o.store, capacity, ops[1..]);
      Run(m, capacity, ops) == (r.0, [o.answer] + r.1)
  {
  }

  lemma RegularStep<S>(m: Store<S>, capacity: nat, ops: seq<Timed<S>>)
    requires ops != [] && Regular(m, capacity, ops)
    ensures Consistent(m, ops[0].op) && !Revives(m, ops[0].op, ops[0].at)
    ensures Regular(Perform(m, capacity, ops[0].op, ops[0].at).store, capacity, ops[1..])
  {
  }

  lemma MonotoneStep<S>(ops: seq<Timed<S>>, start: int)
    requires ops != [] && Monotone(ops, start)
    ensures start <= ops[0].at && Monotone(ops[1..], ops[0].at)
  {
  }

  lemma RunEagerStep<S>(m: Store<S>, capacity: nat, ops: seq<Timed<S>>)
    requires ops != []
    ensures var o := Eager(Live(m, ops[0].at), capacity, ops[0].op, ops[0].at);
      var r := RunEager(o.store, capacity, ops[1..]);
      RunEager(m, capacity, ops) == (r.0, [o.answer] + r.1)
  {
  }

  // ---- What else never happens ----------------------------------------------------------------------------------------

  /** Admission never drops a live session. */
  lemma AdmitKeepsLive<S>(m: Store<S>, capacity: nat, id: string, e: Entry<S>, now: int, k: string)
    requires k in m && Alive(m[k], now)
    ensures var r := DoAdmit(m, capacity, id, e, now).store; k in r && r[k] == m[k]
  {
  }

  /** Nothing but admission brings an object into the map. */
  lemma OnlyAdmitAdds<S>(m: Store<S>, capacity: nat, op: Op<S>, now: int, id: string, s: S)
    requires !Holds(m, id, s) && !(op.Admit? && op.id == id && op.entry.session == s)
    ensures !Holds(Perform(m, capacity, op, now).store, id, s)
  {
  }

  /** An object that was removed or replaced stays out: until it is admitted again no load returns it
      and every update of it fails. */
  lemma {:induction false} StaysOut<S>(m: Store<S>, capacity: nat, ops: seq<Timed<S>>, id: string, s: S)
    requires !Holds(m, id, s)
    requires forall i :: 0 <= i < |ops| && ops[i].op.Admit? ==> !(ops[i].op.id == id && ops[i].op.entry.session == s)
    ensures var r := Run(m, capacity, ops);
      && !Holds(r.0, id, s) && |r.1| == |ops|
      && forall i :: 0 <= i < |ops| ==>
           && (ops[i].op == Op.Load(id) || ops[i].op == Op.LoadAndRefresh(id) ==> r.1[i] != Found(s))
           && (ops[i].op == Op.UpdateExisting(id, s) ==> r.1[i] == Flag(false))
    decreases |ops|
  {
    if ops != [] {
      var o := Perform(m, capacity, ops[0].op, ops[0].at);
      OnlyAdmitAdds(m, capacity, ops[0].op, ops[0].at, id, s);
      StaysOut(o.store, capacity, ops[1..], id, s);
      var r := Run(o.store, capacity, ops[1..]);
      hide Perform, Run;
      OutAnswers(m, capacity, ops, r.1, id, s);
      RunStep(m, capacity, ops);
    }
  }

  lemma OutAnswers<S>(m: Store<S>, capacity: nat, ops: seq<Timed<S>>, rest: seq<Answer<S>>, id: string, s: S)
    requires ops != [] && |rest| == |ops| - 1 && !Holds(m, id, s)
    requires forall i :: 0 <= i < |rest| ==>
      && (ops[1..][i].op == Op.Load(id) || ops[1..][i].op == Op.LoadAndRefresh(id) ==> rest[i] != Found(s))
      && (ops[1..][i].op == Op.UpdateExisting(id, s) ==> rest[i] == Flag(false))
    ensures var all := [Perform(m, capacity, ops[0].op, ops[0].at).answer] + rest;
      forall i :: 0 <= i < |ops| ==>
        && (ops[i].op == Op.Load(id) || ops[i].op == Op.LoadAndRefresh(id) ==> all[i] != Found(s))
        && (ops[i].op == Op.UpdateExisting(id, s) ==> all[i] == Flag(false))
  {
    var all := [Perform(m, capacity, ops[0].op, ops[0].at).answer] + rest;
    forall i | 0 <= i < |ops|
      ensures ops[i].op == Op.Load(id) || ops[i].op == Op.LoadAndRefresh(id) ==> all[i] != Found(s)
      ensures ops[i].op == Op.UpdateExisting(id, s) ==> all[i] == Flag(false)
    {
      if i > 0 { assert ops[i] == ops[1..][i - 1] && all[i] == rest[i - 1]; }
    }
  }

  // ---- The default lifecycle of a storage without expiry checks ---------------------------------------------------------

  /** loadAndRefresh put together from load, isExpired, remove, refresh and save, which looks at the
      clock twice. */
  function DefaultLoadAndRefresh<S>(m: Store<S>, id: string, checked: int, refreshed: int): Outcome<S> {
    if id !in m then Outcome(m, NotFound)
    else if !Alive(m[id], checked) then Outcome(m - {id}, NotFound)
    else Outcome(m[id := Refreshed(m[id], refreshed)], Found(m[id].session))
  }

  /** updateExisting put together the same way: it goes by the name and saves the caller's object. */
  function DefaultUpdate<S>(m: Store<S>, id: string, e: Entry<S>, now: int): Outcome<S> {
    if id !in m then Outcome(m, Flag(false))
    else if !Alive(m[id], now) then Outcome(m - {id}, Flag(false))
    else if !Alive(e, now) then Outcome(m, Flag(false))
    else Outcome(m[id := e], Flag(true))
  }

  /** The default refresh is the atomic one exactly when the session does not expire between its two
      looks at the clock. */
  lemma DefaultRefreshExact<S>(m: Store<S>, id: string, checked: int, refreshed: int)
    requires checked <= refreshed
    ensures DefaultLoadAndRefresh(m, id, checked, refreshed) == DoLoad(m, id, refreshed, true) <==>
      !(id in m && Alive(m[id], checked) && !Alive(m[id], refreshed))
  {
  }

  /** The default update is the atomic one exactly when it does not put a live object over another
      live object of the same name, as it does after a removal and a new login. */
  lemma DefaultUpdateExact<S>(m: Store<S>, id: string, e: Entry<S>, now: int)
    requires Holds(m, id, e.session) ==> m[id] == e
    ensures DefaultUpdate(m, id, e, now).answer == DoUpdate(m, id, e.session, now).answer <==>
      !(id in m && Alive(m[id], now) && m[id].session != e.session && Alive(e, now))
    ensures Live(DefaultUpdate(m, id, e, now).store, now) == Live(DoUpdate(m, id, e.session, now).store, now) <==>
      !(id in m && Alive(m[id], now) && m[id].session != e.session && Alive(e, now))
  {
    var d, u := DefaultUpdate(m, id, e, now).store, DoUpdate(m, id, e.session, now).store;
    LiveWith(m, id, e, now);
    LiveWithout(m, id, now);
    if id in m && Alive(m[id], now) && m[id].session != e.session && Alive(e, now) {
      assert Live(d, now)[id] != Live(u, now)[id];
    }
  }

  /** Object 7 is admitted, its session removed, and object 8 admitted by a new login under the same
      name; a late update of object 7 through the defaults then replaces object 8, while the atomic
      update refuses and keeps it. */
  lemma OldObjectReturns()
    ensures var old7: Entry<int> := Entry(7, 1, 30); var new8: Entry<int> := Entry(8, 1, 40);
      var start: Store<int> := map[];
      var login := Timed.Timed(Op.Admit("a", old7), 10);
      var logout := Timed.Timed(Op.Remove("a"), 15);
      var again := Timed.Timed(Op.Admit("a", new8), 20);
      var m := Run(start, 2, [login, logout, again]).0;
      && DefaultUpdate(m, "a", old7, 25) == Outcome(map["a" := old7], Flag(true))
      && DoUpdate(m, "a", 7, 25) == Outcome(map["a" := new8], Flag(false))
  {
    var old7: Entry<int>, new8: Entry<int> := Entry(7, 1, 30), Entry(8, 1, 40);
    var start: Store<int> := map[];
    var login := Timed.Timed(Op.Admit("a", old7), 10);
    var logout := Timed.Timed(Op.Remove("a"), 15);
    var again := Timed.Timed(Op.Admit("a", new8), 20);
    RunStep(start, 2, [login, logout, again]);
    assert [login, logout, again][1..] == [logout, again];
    assert Perform(start, 2, login.op, 10).store == map["a" := old7];
    RunStep(map["a" := old7], 2, [logout, again]);
    assert [logout, again][1..] == [again];
    assert map["a" := old7] - {"a"} == start;
    RunStep(start, 2, [again]);
    assert [again][1..] == [];
    assert Perform(start, 2, again.op, 20).store == map["a" := new8];
  }
}
