/** Every stored publish is a message of its own, so two deliveries never share one copy. */
module MqCopies {
  import opened Json
  import opened MqClient
  import opened MqSystem
  import opened MqCustody
  import opened MqCustodyBroker

  /** The broker has stored publish `n` of channel `h`. */
  ghost predicate StoredAt(s: System, h: nat, n: nat) {
    h in s.conns && n < |s.conns[h].outcomes| && s.conns[h].outcomes[n].Stored?
  }

  ghost function NumberAt(s: System, h: nat, n: nat): nat
    requires StoredAt(s, h, n)
  {
    s.conns[h].outcomes[n].id
  }

  /** The broker gives every publish it stores a number of its own. */
  ghost predicate Numbered(s: System) {
    && (forall h, n :: StoredAt(s, h, n) ==> NumberAt(s, h, n) < |s.records|)
    && (forall g, m, h, n :: StoredAt(s, g, m) && StoredAt(s, h, n) && NumberAt(s, g, m) == NumberAt(s, h, n) ==> g == h && m == n)
  }

  /** No outcome is written but by TakePublish. */
  lemma OutcomesStay(codec: Codec, s: System, st: Step)
    requires Enabled(s, st) && !st.TakePublish?
    ensures |s.records| <= |Apply(codec, s, st).records|
    ensures forall h, n :: StoredAt(Apply(codec, s, st), h, n) ==>
      StoredAt(s, h, n) && NumberAt(Apply(codec, s, st), h, n) == NumberAt(s, h, n)
  {
    hide RunClosure, PublisherTurn, FireTimer, FireReconnect, DrainPending, OnNotice, Stop, WorkerResult, OnConnected;
  }

  lemma RouteNumbered(s: System, g: nat, routable: bool, refused: bool)
    requires Numbered(s) && Enabled(s, TakePublish(g, routable, refused))
    ensures Numbered(Route(s, g, routable, refused))
  {
    var r, last := Route(s, g, routable, refused), |s.conns[g].outcomes|;
    RouteOutcome(s, g, routable, refused);
    assert |s.records| <= |r.records| && (StoredAt(r, g, last) ==> |s.records| < |r.records|);
    hide Route;
    forall h, n | StoredAt(r, h, n)
      ensures if h == g && n == last then NumberAt(r, h, n) == |s.records|
              else StoredAt(s, h, n) && NumberAt(r, h, n) == NumberAt(s, h, n)
    {}
  }

  lemma NumberedStep(codec: Codec, s: System, st: Step)
    requires Numbered(s) && Enabled(s, st)
    ensures Numbered(Apply(codec, s, st))
  {
    if st.TakePublish? {
      RouteNumbered(s, st.g, st.routable, st.refused);
    } else {
      OutcomesStay(codec, s, st);
      hide *;
      NumberedSubset(s, Apply(codec, s, st));
    }
  }

  lemma NumberedSubset(s: System, r: System)
    requires Numbered(s) && |s.records| <= |r.records|
    requires forall h, n :: StoredAt(r, h, n) ==> StoredAt(s, h, n) && NumberAt(r, h, n) == NumberAt(s, h, n)
    ensures Numbered(r)
  {}

  lemma {:induction false} NumberedAlways(codec: Codec, s: System, steps: seq<Step>, r: System)
    requires Numbered(s) && Runs(codec, s, steps, r)
    ensures Numbered(r)
    decreases |steps|
  {
    hide Numbered;
    if steps != [] {
      NumberedStep(codec, s, steps[0]);
      NumberedAlways(codec, Apply(codec, s, steps[0]), steps[1..], r);
    }
  }

  /** Message `j` is the stored publish that was made for a delivery of message `id`. */
  ghost predicate Copies(codec: Codec, s: System, id: nat, j: nat) {
    exists g, t, h, n :: OwnCopy(codec, s, g, t, h, n) && IdOf(s, g, t) == id && NumberAt(s, h, n) == j
  }

  /** No two deliveries are justified by one copy: in every state of every run, a stored message is
      the own copy of at most one delivery, so also of at most one message. */
  lemma NoSharing(codec: Codec, s: System, steps: seq<Step>, r: System,
                  g: nat, t: nat, h: nat, n: nat, g': nat, t': nat, h': nat, n': nat)
    requires Init(s) && Runs(codec, s, steps, r)
    requires OwnCopy(codec, r, g, t, h, n) && OwnCopy(codec, r, g', t', h', n')
    requires NumberAt(r, h, n) == NumberAt(r, h', n')
    ensures g == g' && t == t' && h == h' && n == n'
  {
    NumberedAlways(codec, s, steps, r);
    assert StoredAt(r, h, n) && StoredAt(r, h', n');
  }

  lemma CopiesOne(codec: Codec, s: System, steps: seq<Step>, r: System, id: nat, id': nat, j: nat)
    requires Init(s) && Runs(codec, s, steps, r) && Copies(codec, r, id, j) && Copies(codec, r, id', j)
    ensures id == id'
  {
    var g, t, h, n :| OwnCopy(codec, r, g, t, h, n) && IdOf(r, g, t) == id && NumberAt(r, h, n) == j;
    var g', t', h', n' :| OwnCopy(codec, r, g', t', h', n') && IdOf(r, g', t') == id' && NumberAt(r, h', n') == j;
    NoSharing(codec, s, steps, r, g, t, h, n, g', t', h', n');
  }
}
