/** The pool as it is updated in place, proved to follow its specification. */
module GemmaInferencePool {
  import opened Optional
  import opened GemmaPool

  class InferencePool {
    var loaded: bool
    var policy: Policy
    var sessions: Sessions
    var accessOrder: nat

    function View(): Pool
      reads this
    {
      Pool(loaded, policy, sessions, accessOrder)
    }

    constructor ()
      ensures View() == EMPTY_POOL
    {
      loaded, policy, sessions, accessOrder := false, DEFAULT_POLICY, map[], 0;
    }

    method Init(wanted: Policy, builds: bool)
      modifies this
      ensures View() == Initialize(old(View()), wanted, builds)
    {
      if loaded { return; }
      if wanted.maxSessions == 0 || wanted.sequenceTokens < 32 || wanted.sequenceTokens > 8192 ||
         wanted.sequenceTokens % 32 != 0 || wanted.idleTtl <= 0 { return; }
      if !builds { return; }
      loaded, policy := true, wanted;
    }

    method Stop()
      modifies this
      ensures View() == Shutdown(old(View()))
    {
      sessions := map[];
      loaded := false;
      accessOrder := 0;
    }

    method ClearSession(key: string)
      modifies this
      ensures View() == Clear(old(View()), key)
    {
      sessions := sessions - {key};
    }

    method PruneExpired(now: int)
      modifies this
      ensures View() == Prune(old(View()), now)
    {
      var todo := sessions.Keys;
      while todo != {}
        invariant todo <= sessions.Keys <= old(sessions).Keys && View() == old(View()).(sessions := sessions)
        invariant forall k :: k in sessions ==> sessions[k] == old(sessions)[k]
        invariant forall k :: k in old(sessions) && k !in todo ==>
          (k in sessions <==> now - old(sessions)[k].lastUsed < policy.idleTtl)
        decreases |todo|
      {
        var k :| k in todo;
        todo := todo - {k};
        if now - sessions[k].lastUsed >= policy.idleTtl { sessions := sessions - {k}; }
      }
      assert sessions == Prune(old(View()), now).sessions;
    }

    /** The least recently used key. */
    method MinElement() returns (oldest: string)
      requires sessions != map[]
      ensures IsOldest(sessions, oldest)
    {
      oldest :| oldest in sessions;
      var todo := sessions.Keys - {oldest};
      while todo != {}
        invariant todo <= sessions.Keys && oldest in sessions
        invariant forall k :: k in sessions && k !in todo ==> sessions[oldest].order <= sessions[k].order
        decreases |todo|
      {
        var k :| k in todo;
        todo := todo - {k};
        if sessions[k].order < sessions[oldest].order { oldest := k; }
      }
    }

    /** Drops the key's own cache and evicts until one more fits. */
    method Evict(key: string)
      requires Ranked(sessions - {key}) && policy.maxSessions > 0
      modifies `sessions
      ensures sessions == MakeRoom(old(sessions) - {key}, policy.maxSessions)
    {
      sessions := sessions - {key};
      hide MakeRoom, Ranked, IsOldest;
      while |sessions| >= policy.maxSessions
        invariant Ranked(sessions)
        invariant MakeRoom(sessions, policy.maxSessions) == MakeRoom(old(sessions) - {key}, policy.maxSessions)
        decreases |sessions|
      {
        var oldest := MinElement();
        MakeRoomStep(sessions, policy.maxSessions, oldest);
        sessions := sessions - {oldest};
      }
      MakeRoomOne(sessions, policy.maxSessions);
    }

    method ReplayTurns(tok: Tokenizer, turns: seq<string>) returns (r: Tokens)
      ensures r == Replay(tok, policy.sequenceTokens, turns)
    {
      r := Tokens([]);
      var i := 0;
      while i < |turns|
        invariant 0 <= i <= |turns| && r.Tokens?
        invariant Replay(tok, policy.sequenceTokens, turns[..i]) == r
      {
        assert turns[..i + 1][..i] == turns[..i];
        r := AppendTurn(tok, policy.sequenceTokens, 0, r.tokens, turns[i], i % 2 == 0);
        i := i + 1;
        if r.Bad? {
          BadReplay(tok, policy.sequenceTokens, turns, i);
          return;
        }
      }
      assert turns[..i] == turns;
    }

    method FreshTokens(tok: Tokenizer, input: Input) returns (t: Tokens)
      ensures t == MissTokens(tok, policy.sequenceTokens, input)
    {
      match input {
        case Incremental(text) => t := AppendTurn(tok, policy.sequenceTokens, 0, [], text, true);
        case History(turns) => t := ReplayTurns(tok, turns);
      }
    }

    /** Compares a cached transcript with the supplied history, turn by turn. */
    method Reusable(input: Input, key: string) returns (reuse: bool)
      ensures reuse == Hit(View(), Request(key, input, true, 1, 0, 0, None, None))
    {
      if key !in sessions { return false; }
      if input.Incremental? { return true; }
      var prior := sessions[key].transcript;
      if prior == [] || |prior| + 1 != |input.turns| { return false; }
      var i := 0;
      while i < |prior|
        invariant 0 <= i <= |prior| && prior[..i] == input.turns[..i]
      {
        if prior[i] != input.turns[i] { return false; }
        i := i + 1;
      }
      assert prior[..i] == prior;
      return true;
    }

    /** The engine run on a chosen cache. */
    method RunEngine(tok: Tokenizer, r: Request, s: Session, start: nat, tokens: seq<int>) returns (reply: Reply)
      requires start <= |s.cells|
      modifies this
      ensures Result(View(), reply) == Run(tok, old(View()), r, s, start, tokens)
    {
      if r.outcome.None? {
        sessions := sessions - {r.key};
        return Rejected(EngineFailed);
      }
      var generated := r.outcome.value;
      var context := s.cells[..start] + tokens;
      var answer := Say(tok, generated);
      accessOrder := accessOrder + 1;
      sessions := sessions[r.key := Session(context + generated, s.seqLen, start + |tokens| + |generated|,
                                            Remember(r, answer), r.finished, accessOrder)];
      return Answered(context, answer);
    }

    method CallReused(tok: Tokenizer, r: Request) returns (reply: Reply)
      requires Hit(View(), r) && Aligned(View())
      modifies this
      ensures Result(View(), reply) == CallHit(tok, old(View()), r)
    {
      var s := sessions[r.key];
      var t := AppendTurn(tok, policy.sequenceTokens, s.absPos, [], LastTurn(r.input), true);
      if t.Bad? { return Rejected(t.error); }
      if !ValidBudget(s.absPos, |t.tokens|, r.maxTokens, s.seqLen) { return Rejected(OverBudget); }
      reply := RunEngine(tok, r, s, s.absPos, t.tokens);
    }

    method CallFresh(tok: Tokenizer, r: Request) returns (reply: Reply)
      requires Ranked(sessions) && policy.maxSessions > 0
      modifies this
      ensures Result(View(), reply) == CallMiss(tok, old(View()), r)
    {
      var t := FreshTokens(tok, r.input);
      hide Run, MissTokens, Replay, AppendTurn, MakeRoom;
      if t.Bad? { return Rejected(t.error); }
      if !ValidBudget(0, |t.tokens|, r.maxTokens, policy.sequenceTokens) { return Rejected(OverBudget); }
      Evict(r.key);
      if r.seqLen.None? { return Rejected(NoMemory); }
      if !ValidBudget(0, |t.tokens|, r.maxTokens, r.seqLen.value) { return Rejected(OverBudget); }
      reply := RunEngine(tok, r, Session([], r.seqLen.value, 0, [], 0, 0), 0, t.tokens);
    }

    method Generate(tok: Tokenizer, r: Request) returns (reply: Reply)
      requires Sound(View())
      modifies this
      ensures Sound(View()) && Result(View(), reply) == Call(tok, old(View()), r)
    {
      CallSound(tok, View(), r);
      hide CallHit, CallMiss;
      if !loaded { return Rejected(NotLoaded); }
      if r.key == "" || r.maxTokens == 0 || !r.temperatureOk { return Rejected(BadRequest); }
      if r.input.History? && |r.input.turns| % 2 == 0 { return Rejected(BadHistory); }
      FewerSound(View(), Prune(View(), r.now).sessions);
      PruneExpired(r.now);
      var reuse := Reusable(r.input, r.key);
      if reuse {
        reply := CallReused(tok, r);
      } else {
        reply := CallFresh(tok, r);
      }
    }
  }

  lemma {:induction false} BadReplay(tok: Tokenizer, limit: nat, turns: seq<string>, i: nat)
    requires i <= |turns| && Replay(tok, limit, turns[..i]).Bad?
    ensures Replay(tok, limit, turns) == Replay(tok, limit, turns[..i])
    decreases |turns| - i
  {
    if i == |turns| {
      assert turns[..i] == turns;
    } else {
      assert turns[..i + 1][..i] == turns[..i];
      BadReplay(tok, limit, turns, i + 1);
    }
  }

  /** The text passed to the token callback, token by token. */
  method Say(tok: Tokenizer, generated: seq<int>) returns (answer: string)
    ensures answer == Spoken(tok, generated)
  {
    answer := "";
    var i := 0;
    while i < |generated|
      invariant 0 <= i <= |generated| && answer == Spoken(tok, generated[..i])
    {
      assert generated[..i + 1][..i] == generated[..i];
      var token := generated[i];
      if !tok.eos(token) {
        var text := tok.decode(token);
        if text.Some? { answer := answer + text.value; }
      }
      i := i + 1;
    }
    assert generated[..i] == generated;
  }
}
