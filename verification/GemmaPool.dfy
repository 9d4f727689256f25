/** The pool of key-value caches of the local model: exact-transcript reuse, token budgets, idle
    expiry and least-recently-used eviction. */
module GemmaPool {
  import opened Finite
  import opened Optional

  // ---- The engine's side -----------------------------------------------------------------------------------------

  /** The tokenizer: plain encoding, a wrapped user turn at a position, decoding of one token. */
  datatype Tokenizer = Tokenizer(
    encode: string -> Option<seq<int>>, wrap: (nat, string) -> seq<int>, decode: int -> Option<string>, eos: int -> bool)

  /** The text a run of generated tokens is reported as. */
  function Spoken(tok: Tokenizer, tokens: seq<int>): string {
    if tokens == [] then ""
    else
      var t := tokens[|tokens| - 1];
      Spoken(tok, tokens[..|tokens| - 1]) + if !tok.eos(t) && tok.decode(t).Some? then tok.decode(t).value else ""
  }

  // ---- State -------------------------------------------------------------------------------------------------------

  datatype Policy = Policy(maxSessions: nat, sequenceTokens: nat, idleTtl: int)

  /** `cells` are the tokens the cache holds, one a position; `seqLen` is its capacity. */
  datatype Session = Session(
    cells: seq<int>, seqLen: nat, absPos: nat, transcript: seq<string>, lastUsed: int, order: nat)

  type Sessions = map<string, Session>

  datatype Pool = Pool(loaded: bool, policy: Policy, sessions: Sessions, accessOrder: nat)

  const DEFAULT_POLICY := Policy(2, 1024, 600000)
  const EMPTY_POOL := Pool(false, DEFAULT_POLICY, map[], 0)

  datatype Input = Incremental(text: string) | History(turns: seq<string>)

  /** One call. `seqLen` is the capacity of a newly allocated cache, None when allocation throws;
      `outcome` is what the engine generates, None when it or the token callback throws. */
  datatype Request = Request(
    key: string, input: Input, temperatureOk: bool, maxTokens: nat, now: int, finished: int,
    seqLen: Option<nat>, outcome: Option<seq<int>>)

  datatype Error = NotLoaded | BadRequest | BadHistory | NotEncodable | OverBudget | NoMemory | EngineFailed

  /** `context` is everything the model has read when it starts to answer. */
  datatype Reply = Rejected(error: Error) | Answered(context: seq<int>, answer: string)

  datatype Result = Result(pool: Pool, reply: Reply)

  // ---- Budget and prompt ---------------------------------------------------------------------------------------------

  /** No subtraction goes below zero and no sum is formed that could wrap. */
  function ValidBudget(start: nat, prompt: nat, generated: nat, capacity: nat): (ok: bool)
    ensures ok <==> prompt > 0 && start + prompt + generated <= capacity
  {
    if prompt == 0 || start > capacity then false
    else
      var room: nat := capacity - start;
      if prompt > room then false
      else
        var left: nat := room - prompt;
        generated <= left
  }

  datatype Tokens = Tokens(tokens: seq<int>) | Bad(error: Error)

  function AppendTurn(tok: Tokenizer, limit: nat, start: nat, tokens: seq<int>, text: string, user: bool): Tokens
    requires |tokens| <= limit
  {
    match tok.encode(text)
    case None => Bad(NotEncodable)
    case Some(plain) =>
      var part := if user then tok.wrap(start + |tokens|, text) else plain;
      var room: nat := limit - |tokens|;
      if |part| > room then Bad(OverBudget) else Tokens(tokens + part)
  }

  /** A full replay: every turn of the history. */
  function Replay(tok: Tokenizer, limit: nat, turns: seq<string>): (r: Tokens)
    ensures r.Tokens? ==> |r.tokens| <= limit
  {
    if turns == [] then Tokens([])
    else
      var n := |turns| - 1;
      match Replay(tok, limit, turns[..n])
      case Bad(e) => Bad(e)
      case Tokens(ts) => AppendTurn(tok, limit, 0, ts, turns[n], n % 2 == 0)
  }

  function LastTurn(input: Input): string {
    match input
    case Incremental(text) => text
    case History(turns) => if turns == [] then "" else turns[|turns| - 1]
  }

  // ---- Which cache -----------------------------------------------------------------------------------------------------

  function Prune(p: Pool, now: int): (r: Pool)
    ensures r.sessions.Keys <= p.sessions.Keys
  {
    p.(sessions := map k | k in p.sessions && now - p.sessions[k].lastUsed < p.policy.idleTtl :: p.sessions[k])
  }

  /** A present cache serves an incremental call always, a history call only if its transcript is
      exactly the history before the new turn. */
  predicate Hit(p: Pool, r: Request) {
    r.key in p.sessions &&
    match r.input
    case Incremental(_) => true
    case History(turns) =>
      var prior := p.sessions[r.key].transcript;
      prior != [] && |prior| + 1 == |turns| && prior == turns[..|turns| - 1]
  }

  /** The orders of use are all different, so the least one is unique. */
  ghost predicate Ranked(s: Sessions) {
    forall j, k :: j in s && k in s && j != k ==> s[j].order != s[k].order
  }

  ghost predicate IsOldest(s: Sessions, k: string) { k in s && forall j :: j in s ==> s[k].order <= s[j].order }

  lemma OldestExists(s: Sessions)
    requires s != map[]
    ensures exists k :: IsOldest(s, k)
    decreases |s|
  {
    var k :| k in s;
    var rest := s - {k};
    assert forall j :: j in s ==> j == k || j in rest;
    if rest == map[] {
      assert IsOldest(s, k);
    } else {
      assert rest.Keys == s.Keys - {k};
      OldestExists(rest);
      var m :| IsOldest(rest, m);
      assert IsOldest(s, if s[k].order <= s[m].order then k else m);
    }
  }

  ghost function Oldest(s: Sessions): (k: string)
    requires s != map[]
    ensures IsOldest(s, k)
  {
    OldestExists(s);
    var k :| IsOldest(s, k);
    k
  }

  /** Evicts the least recently used until one more cache fits. */
  ghost function MakeRoom(s: Sessions, max: nat): (r: Sessions)
    requires max > 0
    ensures |r| < max && r.Keys <= s.Keys && forall k :: k in r ==> r[k] == s[k]
    decreases |s|
  {
    if |s| < max then s
    else
      assert (s - {Oldest(s)}).Keys == s.Keys - {Oldest(s)};
      MakeRoom(s - {Oldest(s)}, max)
  }

  lemma MakeRoomStep(s: Sessions, max: nat, k: string)
    requires 0 < max <= |s| && Ranked(s) && IsOldest(s, k)
    ensures MakeRoom(s, max) == MakeRoom(s - {k}, max) && Ranked(s - {k}) && |s - {k}| < |s|
  {
    assert k == Oldest(s);
    assert (s - {k}).Keys == s.Keys - {k};
  }

  lemma MakeRoomOne(s: Sessions, max: nat)
    requires 0 < max && |s| <= max
    ensures MakeRoom(s, max) == if |s| < max then s else s - {Oldest(s)}
  {
    if |s| == max {
      assert (s - {Oldest(s)}).Keys == s.Keys - {Oldest(s)};
    }
  }

  // ---- One call ----------------------------------------------------------------------------------------------------------

  function Remember(r: Request, answer: string): seq<string> {
    match r.input
    case Incremental(_) => []
    case History(turns) => turns + [answer]
  }

  /** The engine run on a chosen cache, from position `start`. */
  function Run(tok: Tokenizer, p: Pool, r: Request, s: Session, start: nat, tokens: seq<int>): Result
    requires start <= |s.cells|
  {
    match r.outcome
    case None => Result(p.(sessions := p.sessions - {r.key}), Rejected(EngineFailed))
    case Some(generated) =>
      var context := s.cells[..start] + tokens;
      var answer := Spoken(tok, generated);
      var used := Session(context + generated, s.seqLen, start + |tokens| + |generated|, Remember(r, answer), r.finished,
                          p.accessOrder + 1);
      Result(p.(sessions := p.sessions[r.key := used], accessOrder := p.accessOrder + 1), Answered(context, answer))
  }

  /** The cache in use is full up to its position. */
  predicate Aligned(p: Pool) { forall k :: k in p.sessions ==> p.sessions[k].absPos == |p.sessions[k].cells| }

  function CallHit(tok: Tokenizer, p: Pool, r: Request): Result
    requires Hit(p, r) && Aligned(p)
  {
    var s := p.sessions[r.key];
    match AppendTurn(tok, p.policy.sequenceTokens, s.absPos, [], LastTurn(r.input), true)
    case Bad(e) => Result(p, Rejected(e))
    case Tokens(ts) =>
      if !ValidBudget(s.absPos, |ts|, r.maxTokens, s.seqLen) then Result(p, Rejected(OverBudget))
      else Run(tok, p, r, s, s.absPos, ts)
  }

  function MissTokens(tok: Tokenizer, limit: nat, input: Input): Tokens {
    match input
    case Incremental(text) => AppendTurn(tok, limit, 0, [], text, true)
    case History(turns) => Replay(tok, limit, turns)
  }

  /** The pool at the moment a new cache is allocated: the key's own cache is gone, and evictions
      have been made. */
  ghost function Cleared(p: Pool, key: string): Pool
    requires p.policy.maxSessions > 0
  {
    p.(sessions := MakeRoom(p.sessions - {key}, p.policy.maxSessions))
  }

  /** Allocation, which may fail or turn out too small, and the run on the new cache. */
  function Allocate(tok: Tokenizer, p: Pool, r: Request, tokens: seq<int>): Result {
    if r.seqLen.None? then Result(p, Rejected(NoMemory))
    else if !ValidBudget(0, |tokens|, r.maxTokens, r.seqLen.value) then Result(p, Rejected(OverBudget))
    else Run(tok, p, r, Session([], r.seqLen.value, 0, [], 0, 0), 0, tokens)
  }

  /** Evictions happen before the allocation, and stand even if it fails. */
  ghost function CallMiss(tok: Tokenizer, p: Pool, r: Request): Result
    requires p.policy.maxSessions > 0
  {
    match MissTokens(tok, p.policy.sequenceTokens, r.input)
    case Bad(e) => Result(p, Rejected(e))
    case Tokens(ts) =>
      if !ValidBudget(0, |ts|, r.maxTokens, p.policy.sequenceTokens) then Result(p, Rejected(OverBudget))
      else Allocate(tok, Cleared(p, r.key), r, ts)
  }

  /** The checks before anything is touched. */
  function Refusal(p: Pool, r: Request): Option<Error> {
    if !p.loaded then Some(NotLoaded)
    else if r.key == "" || r.maxTokens == 0 || !r.temperatureOk then Some(BadRequest)
    else if r.input.History? && |r.input.turns| % 2 == 0 then Some(BadHistory)
    else None
  }

  ghost function Call(tok: Tokenizer, p: Pool, r: Request): Result
    requires (p.loaded ==> p.policy.maxSessions > 0) && Aligned(p)
  {
    if Refusal(p, r).Some? then Result(p, Rejected(Refusal(p, r).value))
    else
      var p1 := Prune(p, r.now);
      if Hit(p1, r) then CallHit(tok, p1, r) else CallMiss(tok, p1, r)
  }

  predicate ValidPolicy(policy: Policy) {
    policy.maxSessions > 0 && 32 <= policy.sequenceTokens <= 8192 && policy.sequenceTokens % 32 == 0 && policy.idleTtl > 0
  }

  /** `builds` says whether the model files are readable and the engine can be constructed. */
  function Initialize(p: Pool, policy: Policy, builds: bool): Pool {
    if p.loaded || !ValidPolicy(policy) || !builds then p else p.(loaded := true, policy := policy)
  }

  function Clear(p: Pool, key: string): Pool { p.(sessions := p.sessions - {key}) }

  function Shutdown(p: Pool): Pool { p.(loaded := false, sessions := map[], accessOrder := 0) }

  // ---- What every call keeps -------------------------------------------------------------------------------------------

  /** The caches are within the bound, each is filled up to its position, and the orders of use are
      different and already handed out. */
  ghost predicate Sound(p: Pool) {
    && Aligned(p) && Ranked(p.sessions)
    && (forall k :: k in p.sessions ==> p.sessions[k].order <= p.accessOrder)
    && (p.sessions != map[] ==> p.loaded) && (p.loaded ==> ValidPolicy(p.policy))
    && |p.sessions| <= p.policy.maxSessions
  }

  lemma FewerKeys(s: Sessions, t: Sessions)
    requires s.Keys <= t.Keys
    ensures |s| <= |t|
  {
    Fewer(s.Keys, t.Keys);
  }

  lemma FewerSound(p: Pool, s: Sessions)
    requires Sound(p) && s.Keys <= p.sessions.Keys && forall k :: k in s ==> s[k] == p.sessions[k]
    ensures Sound(p.(sessions := s))
  {
    FewerKeys(s, p.sessions);
    assert s != map[] ==> p.sessions != map[] by {
      if s != map[] { var k :| k in s; }
    }
  }

  /** Whatever the engine does, a run with room for its session leaves a sound pool. */
  lemma RunSound(tok: Tokenizer, p: Pool, r: Request, s: Session, start: nat, tokens: seq<int>)
    requires Sound(p) && p.loaded && start == |s.cells|
    requires r.key in p.sessions || |p.sessions| < p.policy.maxSessions
    ensures Sound(Run(tok, p, r, s, start, tokens).pool)
  {
    var q := Run(tok, p, r, s, start, tokens).pool;
    if r.outcome.None? {
      FewerSound(p, q.sessions);
    } else {
      assert q.sessions.Keys == p.sessions.Keys + {r.key};
    }
  }

  lemma CallSound(tok: Tokenizer, p: Pool, r: Request)
    requires Sound(p)
    ensures Sound(Call(tok, p, r).pool)
  {
    var p1 := Prune(p, r.now);
    FewerSound(p, p1.sessions);
    hide Run, AppendTurn, Sound;
    if Refusal(p, r).None? {
      if Hit(p1, r) {
        HitSound(tok, p1, r);
      } else {
        MissSound(tok, p1, r);
      }
    }
  }

  lemma HitSound(tok: Tokenizer, p: Pool, r: Request)
    requires Sound(p) && p.loaded && Hit(p, r)
    ensures Sound(CallHit(tok, p, r).pool)
  {
    var s := p.sessions[r.key];
    var t := AppendTurn(tok, p.policy.sequenceTokens, s.absPos, [], LastTurn(r.input), true);
    if t.Tokens? { RunSound(tok, p, r, s, s.absPos, t.tokens); }
    hide Run, AppendTurn;
  }

  lemma MissSound(tok: Tokenizer, p: Pool, r: Request)
    requires Sound(p) && p.loaded
    ensures Sound(CallMiss(tok, p, r).pool)
  {
    var p1 := p.(sessions := MakeRoom(p.sessions - {r.key}, p.policy.maxSessions));
    FewerSound(p, p1.sessions);
    var t := MissTokens(tok, p.policy.sequenceTokens, r.input);
    if t.Tokens? && r.seqLen.Some? {
      RunSound(tok, p1, r, Session([], r.seqLen.value, 0, [], 0, 0), 0, t.tokens);
    }
    hide Run, MissTokens, Sound;
  }

  /** The call gets as far as allocating a cache for these tokens. */
  ghost predicate Allocates(tok: Tokenizer, p: Pool, r: Request, tokens: seq<int>) {
    && Refusal(p, r).None? && !Hit(Prune(p, r.now), r)
    && MissTokens(tok, p.policy.sequenceTokens, r.input) == Tokens(tokens)
    && ValidBudget(0, |tokens|, r.maxTokens, p.policy.sequenceTokens)
  }

  /** A call that allocates does so on the pool left by expiry and eviction, where none of the key's own
      caches is left and the new one still fits. */
  lemma AllocationPoint(tok: Tokenizer, p: Pool, r: Request, tokens: seq<int>)
    requires Sound(p) && Allocates(tok, p, r, tokens)
    ensures var at := Cleared(Prune(p, r.now), r.key);
      && Call(tok, p, r) == Allocate(tok, at, r, tokens)
      && r.key !in at.sessions && |at.sessions| + 1 <= p.policy.maxSessions
      && forall k :: k in at.sessions ==> k in p.sessions && r.now - p.sessions[k].lastUsed < p.policy.idleTtl
  {
    hide MakeRoom, Allocate, MissTokens;
  }

  lemma RunPolicy(tok: Tokenizer, p: Pool, r: Request, s: Session, start: nat, tokens: seq<int>)
    requires start <= |s.cells|
    ensures var q := Run(tok, p, r, s, start, tokens).pool; q.policy == p.policy && q.loaded == p.loaded
  {
    hide Spoken;
  }

  lemma MissPolicy(tok: Tokenizer, p: Pool, r: Request)
    requires p.policy.maxSessions > 0
    ensures var q := CallMiss(tok, p, r).pool; q.policy == p.policy && q.loaded == p.loaded
  {
    var t := MissTokens(tok, p.policy.sequenceTokens, r.input);
    if t.Tokens? && r.seqLen.Some? {
      RunPolicy(tok, Cleared(p, r.key), r, Session([], r.seqLen.value, 0, [], 0, 0), 0, t.tokens);
    }
    hide Run, MissTokens, MakeRoom;
  }

  lemma HitPolicy(tok: Tokenizer, p: Pool, r: Request)
    requires Hit(p, r) && Aligned(p)
    ensures var q := CallHit(tok, p, r).pool; q.policy == p.policy && q.loaded == p.loaded
  {
    var s := p.sessions[r.key];
    var t := AppendTurn(tok, p.policy.sequenceTokens, s.absPos, [], LastTurn(r.input), true);
    if t.Tokens? { RunPolicy(tok, p, r, s, s.absPos, t.tokens); }
    hide Run, AppendTurn;
  }

  lemma PolicyKept(tok: Tokenizer, p: Pool, r: Request)
    requires Sound(p)
    ensures Call(tok, p, r).pool.policy == p.policy && Call(tok, p, r).pool.loaded == p.loaded
  {
    hide CallMiss, CallHit, Hit;
    var p1 := Prune(p, r.now);
    if Refusal(p, r).None? {
      FewerSound(p, p1.sessions);
      if Hit(p1, r) {
        HitPolicy(tok, p1, r);
      } else {
        MissPolicy(tok, p1, r);
      }
    }
  }
}
