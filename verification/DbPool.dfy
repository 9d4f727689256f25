/** The database connection pool as a step system: every interleaving of checkouts in progress,
    failures, returns and shutdown. A connection is named by the number of its creation. */
module DbPool {
  import opened Optional
  import opened Recency

  datatype State = State(idle: seq<nat>, target: nat, slots: int, initialized: bool, stopping: bool)

  const NEW_STATE := State([], 0, 0, false, false)

  /** `checkouts` are the borrowers between reserving and finishing: with an idle connection, or with
      a reserved slot only. */
  datatype World = World(state: State, checkouts: map<nat, Option<nat>>, leases: set<nat>, created: nat)

  const NEW_WORLD := World(NEW_STATE, map[], {}, 0)

  // ---- The locked sections --------------------------------------------------------------------------------------------

  function Numbers(from: nat, n: nat): (s: seq<nat>)
    ensures |s| == n && forall i :: 0 <= i < n ==> s[i] == from + i
  {
    if n == 0 then [] else Numbers(from, n - 1) + [from + n - 1]
  }

  /** init: `builds` says whether all connections could be made. None is an exception. */
  function Init(s: State, size: nat, from: nat, builds: bool): Option<State> {
    if s.initialized then Some(s)
    else if s.stopping || size == 0 || !builds then None
    else Some(State(Numbers(from, size), size, size, true, s.stopping))
  }

  /** What a borrower waits for. */
  predicate CanReserve(s: State) { s.initialized && !s.stopping && (s.idle != [] || s.slots < s.target) }

  function Reserve(s: State): (State, Option<nat>)
    requires CanReserve(s)
  {
    if s.idle != [] then (s.(idle := s.idle[1..]), Some(s.idle[0])) else (s.(slots := s.slots + 1), None)
  }

  function Fail(s: State): State { s.(slots := s.slots - 1) }

  function GiveBack(s: State, c: nat): State {
    if s.stopping then s.(slots := s.slots - 1) else s.(idle := s.idle + [c])
  }

  function Stop(s: State): State { s.(stopping := true, slots := s.slots - |s.idle|, idle := []) }

  // ---- The health check, outside the lock ---------------------------------------------------------------------------------

  /** How the database answers: the first creation, the first ping, the reconnect with its ping, and
      the replacement with its ping. */
  datatype Probe = Probe(createOk: bool, pingOk: bool, reconnectOk: bool, replaceOk: bool, replacementOk: bool)

  /** The connection handed out, None for an exception; and the next unused number. */
  function Prepare(held: Option<nat>, created: nat, p: Probe): (Option<nat>, nat) {
    if held.None? && !p.createOk then (None, created)
    else
      var conn := if held.None? then created else held.value;
      var next := if held.None? then created + 1 else created;
      if p.pingOk || p.reconnectOk then (Some(conn), next)
      else if !p.replaceOk then (None, next)
      else (if p.replacementOk then Some(next) else None, next + 1)
  }

  // ---- Steps ------------------------------------------------------------------------------------------------------------------

  datatype Step =
    | DoInit(size: nat, builds: bool)
    | DoReserve(borrower: nat)
    | DoFinish(borrower: nat, probe: Probe)
    | DoReturn(connection: nat)
    | DoStop

  predicate Enabled(w: World, step: Step) {
    match step
    case DoInit(_, _) => true
    case DoReserve(b) => b !in w.checkouts && CanReserve(w.state)
    case DoFinish(b, _) => b in w.checkouts
    case DoReturn(c) => c in w.leases
    case DoStop => true
  }

  function FinishStep(w: World, b: nat, probe: Probe): World
    requires b in w.checkouts
  {
    var r := Prepare(w.checkouts[b], w.created, probe);
    var rest := w.(checkouts := w.checkouts - {b}, created := r.1);
    if r.0.Some? then rest.(leases := w.leases + {r.0.value}) else rest.(state := Fail(w.state))
  }

  function Apply(w: World, step: Step): World
    requires Enabled(w, step)
  {
    match step
    case DoInit(size, builds) =>
      var s := Init(w.state, size, w.created, builds);
      if s.None? || w.state.initialized then w else w.(state := s.value, created := w.created + size)
    case DoReserve(b) =>
      var r := Reserve(w.state);
      w.(state := r.0, checkouts := w.checkouts[b := r.1])
    case DoFinish(b, probe) => FinishStep(w, b, probe)
    case DoReturn(c) => w.(state := GiveBack(w.state, c), leases := w.leases - {c})
    case DoStop => w.(state := Stop(w.state))
  }

  // ---- The invariant --------------------------------------------------------------------------------------------------------------

  /** Every slot is idle, leased or being checked out, and there are no more than the target. */
  predicate Counted(w: World) {
    && w.state.slots == |w.state.idle| + |w.leases| + |w.checkouts|
    && w.state.slots <= w.state.target
    && (w.state.stopping ==> w.state.idle == [])
    && (!w.state.initialized ==> w.state.target == 0)
  }

  predicate Holding(w: World, b: nat, c: nat) { b in w.checkouts && w.checkouts[b] == Some(c) }

  /** No connection is in two places. */
  ghost predicate Exclusive(w: World) {
    && NoDup(w.state.idle) && Elems(w.state.idle) !! w.leases
    && (forall b: nat, c: nat :: Holding(w, b, c) ==> c !in w.state.idle && c !in w.leases && c < w.created)
    && (forall b: nat, d: nat, c: nat :: Holding(w, b, c) && Holding(w, d, c) ==> b == d)
    && (forall c :: c in w.state.idle ==> c < w.created) && (forall c :: c in w.leases ==> c < w.created)
  }

  lemma MapSizes(m: map<nat, Option<nat>>, b: nat, v: Option<nat>)
    ensures b in m ==> |m - {b}| == |m| - 1
    ensures b !in m ==> |m[b := v]| == |m| + 1
  {
    assert (m - {b}).Keys == m.Keys - {b} && |m| == |m.Keys| && |m - {b}| == |(m - {b}).Keys|;
    assert m[b := v].Keys == m.Keys + {b} && |m[b := v]| == |m[b := v].Keys|;
  }

  lemma CountedKept(w: World, step: Step)
    requires Counted(w) && Exclusive(w) && Enabled(w, step)
    ensures Counted(Apply(w, step))
  {
    match step {
      case DoReserve(b) => MapSizes(w.checkouts, b, Reserve(w.state).1);
      case DoFinish(b, probe) =>
        MapSizes(w.checkouts, b, None);
        Handed(w, b, probe);
      case _ =>
    }
  }

  /** What the health check hands out is the borrower's own connection or a new one. */
  lemma Handed(w: World, b: nat, probe: Probe)
    requires b in w.checkouts
    ensures var r := Prepare(w.checkouts[b], w.created, probe);
      && w.created <= r.1
      && (r.0.Some? ==> Holding(w, b, r.0.value) || w.created <= r.0.value < r.1)
      && (r.0.Some? && Exclusive(w) ==> r.0.value !in w.leases)
  {
  }

  lemma ReserveExclusive(w: World, b: nat)
    requires Exclusive(w) && Enabled(w, DoReserve(b))
    ensures Exclusive(Apply(w, DoReserve(b)))
  {
    if w.state.idle != [] {
      var c, rest := w.state.idle[0], w.state.idle[1..];
      Split(w.state.idle);
      var w1 := Apply(w, DoReserve(b));
      assert c in w.state.idle && c !in rest && forall d :: d in rest ==> d in w.state.idle;
      assert forall d: nat, e: nat :: Holding(w1, d, e) ==> (d == b && e == c) || (d != b && Holding(w, d, e));
    } else {
      var w1 := Apply(w, DoReserve(b));
      assert forall d: nat, e: nat :: Holding(w1, d, e) ==> Holding(w, d, e);
    }
  }

  lemma FinishExclusive(w: World, b: nat, probe: Probe)
    requires Exclusive(w) && b in w.checkouts
    ensures Exclusive(FinishStep(w, b, probe))
  {
    var w1 := FinishStep(w, b, probe);
    Handed(w, b, probe);
    hide Prepare;
    assert forall d: nat, e: nat :: Holding(w1, d, e) ==> d != b && Holding(w, d, e);
  }

  lemma ReturnExclusive(w: World, c: nat)
    requires Exclusive(w) && c in w.leases
    ensures Exclusive(Apply(w, DoReturn(c)))
  {
    Joined(w.state.idle, [c]);
    assert Elems([c]) == {c};
    var w1 := Apply(w, DoReturn(c));
    assert forall d: nat, e: nat :: Holding(w1, d, e) ==> Holding(w, d, e);
  }

  lemma ExclusiveKept(w: World, step: Step)
    requires Counted(w) && Exclusive(w) && Enabled(w, step)
    ensures Exclusive(Apply(w, step))
  {
    match step {
      case DoInit(size, builds) => InitExclusive(w, size, builds);
      case DoReserve(b) => ReserveExclusive(w, b);
      case DoFinish(b, probe) => FinishExclusive(w, b, probe);
      case DoReturn(c) => ReturnExclusive(w, c);
      case DoStop =>
        assert forall d: nat, e: nat :: Holding(Apply(w, step), d, e) ==> Holding(w, d, e);
    }
  }

  lemma InitExclusive(w: World, size: nat, builds: bool)
    requires Exclusive(w) && (!w.state.initialized ==> w.state.target == 0) && Counted(w)
    ensures Exclusive(Apply(w, DoInit(size, builds)))
  {
    var w1 := Apply(w, DoInit(size, builds));
    assert forall d: nat, e: nat :: Holding(w1, d, e) ==> Holding(w, d, e);
  }

  // ---- Runs ---------------------------------------------------------------------------------------------------------------------

  /** A disabled step waits: it changes nothing. */
  function Run(steps: seq<Step>): World {
    if steps == [] then NEW_WORLD
    else
      var w := Run(steps[..|steps| - 1]);
      if Enabled(w, steps[|steps| - 1]) then Apply(w, steps[|steps| - 1]) else w
  }

  lemma {:induction false} RunKeeps(steps: seq<Step>)
    ensures Counted(Run(steps)) && Exclusive(Run(steps))
  {
    if steps != [] {
      var n := |steps| - 1;
      RunKeeps(steps[..n]);
      hide Apply, Enabled, Counted, Exclusive;
      var w := Run(steps[..n]);
      if Enabled(w, steps[n]) {
        CountedKept(w, steps[n]);
        ExclusiveKept(w, steps[n]);
      }
    }
  }

  /** In every interleaving: slots are conserved and within the target, no connection is in two places
      or lent twice, and once the pool is stopped and everything is back no slot is taken. */
  lemma SlotsConserved(steps: seq<Step>)
    ensures var w := Run(steps); var s := w.state;
      && s.slots == |s.idle| + |w.leases| + |w.checkouts| && 0 <= s.slots <= s.target
      && NoDup(s.idle) && Elems(s.idle) !! w.leases
      && (forall b: nat, c: nat :: Holding(w, b, c) ==> c !in s.idle && c !in w.leases)
      && (forall b: nat, d: nat, c: nat :: Holding(w, b, c) && Holding(w, d, c) ==> b == d)
      && (s.stopping && w.leases == {} && w.checkouts == map[] ==> s.slots == 0)
  {
    RunKeeps(steps);
    hide Run, NoDup, Elems;
  }

  /** A borrower of a running pool waits exactly while all connections of the target are out. */
  lemma WaitsIffExhausted(steps: seq<Step>)
    ensures var w := Run(steps);
      w.state.initialized && !w.state.stopping ==>
        (CanReserve(w.state) <==> |w.leases| + |w.checkouts| < w.state.target)
  {
    RunKeeps(steps);
  }

  /** A failed checkout makes its slot available again at once. */
  lemma FailureFreesSlot(steps: seq<Step>, b: nat, probe: Probe)
    ensures var w := Run(steps);
      b in w.checkouts && w.state.initialized && !w.state.stopping &&
      Prepare(w.checkouts[b], w.created, probe).0.None? ==>
        CanReserve(FinishStep(w, b, probe).state)
  {
    RunKeeps(steps);
  }
}
