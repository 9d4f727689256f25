/** A cached conversation presents the model with what a full replay of it would. */
module GemmaTransparency {
  import opened Optional
  import opened GemmaPool

  // ---- Reading a cache as a conversation --------------------------------------------------------------------------

  /** The tokens of one turn starting at a position: a wrapped user turn; or an assistant turn, either
      encoded from its text or as the engine generated it. */
  predicate Segment(tok: Tokenizer, at: nat, part: seq<int>, text: string, user: bool) {
    if user then part == tok.wrap(at, text) else tok.encode(text) == Some(part) || Spoken(tok, part) == text
  }

  /** The tokens are exactly these turns, one after the other, the user speaking first. */
  ghost predicate Reads(tok: Tokenizer, cells: seq<int>, turns: seq<string>)
    decreases |turns|
  {
    if turns == [] then cells == []
    else
      var n := |turns| - 1;
      exists at: nat :: at <= |cells| && Reads(tok, cells[..at], turns[..n]) &&
        Segment(tok, at, cells[at..], turns[n], n % 2 == 0)
  }

  lemma ReadsMore(tok: Tokenizer, cells: seq<int>, turns: seq<string>, part: seq<int>, text: string)
    requires Reads(tok, cells, turns) && Segment(tok, |cells|, part, text, |turns| % 2 == 0)
    ensures Reads(tok, cells + part, turns + [text])
  {
    var all := cells + part;
    assert all[..|cells|] == cells && all[|cells|..] == part && (turns + [text])[..|turns|] == turns;
  }

  lemma {:induction false} ReplayReads(tok: Tokenizer, limit: nat, turns: seq<string>)
    requires Replay(tok, limit, turns).Tokens?
    ensures Reads(tok, Replay(tok, limit, turns).tokens, turns)
  {
    if turns != [] {
      var n := |turns| - 1;
      var ts, all := Replay(tok, limit, turns[..n]).tokens, Replay(tok, limit, turns).tokens;
      ReplayReads(tok, limit, turns[..n]);
      assert turns[..n] + [turns[n]] == turns && all == ts + all[|ts|..];
      ReadsMore(tok, ts, turns[..n], all[|ts|..], turns[n]);
    }
  }

  // ---- The invariant -------------------------------------------------------------------------------------------------

  /** Every cache is within its capacity, and a recorded transcript is what the cache holds. */
  ghost predicate Faithful(tok: Tokenizer, s: Session) {
    && s.absPos <= s.seqLen
    && (s.transcript != [] ==> |s.transcript| % 2 == 0 && Reads(tok, s.cells, s.transcript))
  }

  ghost predicate AllFaithful(tok: Tokenizer, p: Pool) {
    forall k :: k in p.sessions ==> Faithful(tok, p.sessions[k])
  }

  /** The engine keeps to the number of tokens it was asked for. */
  predicate WithinLimit(r: Request) { r.outcome.Some? ==> |r.outcome.value| <= r.maxTokens }

  /** What one answered call says about itself and leaves behind. */
  ghost predicate RightAnswer(tok: Tokenizer, r: Request, q: Result) {
    q.reply.Answered? && r.input.History? ==>
      && Reads(tok, q.reply.context, r.input.turns)
      && r.key in q.pool.sessions && q.pool.sessions[r.key].transcript == r.input.turns + [q.reply.answer]
  }

  lemma RunFaithful(tok: Tokenizer, p: Pool, r: Request, s: Session, start: nat, tokens: seq<int>)
    requires AllFaithful(tok, p) && WithinLimit(r) && start == |s.cells|
    requires start + |tokens| + r.maxTokens <= s.seqLen
    requires r.input.History? ==> |r.input.turns| % 2 == 1 && Reads(tok, s.cells + tokens, r.input.turns)
    ensures AllFaithful(tok, Run(tok, p, r, s, start, tokens).pool)
    ensures RightAnswer(tok, r, Run(tok, p, r, s, start, tokens))
  {
    var q := Run(tok, p, r, s, start, tokens);
    assert s.cells[..start] == s.cells;
    if r.outcome.Some? {
      var generated := r.outcome.value;
      if r.input.History? {
        ReadsMore(tok, s.cells + tokens, r.input.turns, generated, Spoken(tok, generated));
      }
      hide Reads, Spoken;
      assert Faithful(tok, q.pool.sessions[r.key]);
    }
  }

  lemma HitReads(tok: Tokenizer, p: Pool, r: Request, tokens: seq<int>)
    requires Sound(p) && AllFaithful(tok, p) && Hit(p, r) && r.input.History?
    requires AppendTurn(tok, p.policy.sequenceTokens, p.sessions[r.key].absPos, [], LastTurn(r.input), true) == Tokens(tokens)
    ensures Reads(tok, p.sessions[r.key].cells + tokens, r.input.turns)
  {
    var s, turns := p.sessions[r.key], r.input.turns;
    assert Faithful(tok, s);
    assert s.transcript + [turns[|turns| - 1]] == turns;
    ReadsMore(tok, s.cells, s.transcript, tokens, turns[|turns| - 1]);
  }

  lemma HitFaithful(tok: Tokenizer, p: Pool, r: Request)
    requires Sound(p) && p.loaded && AllFaithful(tok, p) && WithinLimit(r) && Hit(p, r)
    requires r.input.History? ==> |r.input.turns| % 2 == 1
    ensures AllFaithful(tok, CallHit(tok, p, r).pool) && RightAnswer(tok, r, CallHit(tok, p, r))
  {
    var s := p.sessions[r.key];
    var t := AppendTurn(tok, p.policy.sequenceTokens, s.absPos, [], LastTurn(r.input), true);
    if t.Tokens? && ValidBudget(s.absPos, |t.tokens|, r.maxTokens, s.seqLen) {
      if r.input.History? { HitReads(tok, p, r, t.tokens); }
      RunFaithful(tok, p, r, s, s.absPos, t.tokens);
    }
    hide Run, AppendTurn, AllFaithful, Reads;
  }

  lemma MissFaithful(tok: Tokenizer, p: Pool, r: Request)
    requires Sound(p) && p.loaded && AllFaithful(tok, p) && WithinLimit(r)
    requires r.input.History? ==> |r.input.turns| % 2 == 1
    ensures AllFaithful(tok, CallMiss(tok, p, r).pool) && RightAnswer(tok, r, CallMiss(tok, p, r))
  {
    var p1 := p.(sessions := MakeRoom(p.sessions - {r.key}, p.policy.maxSessions));
    assert AllFaithful(tok, p1);
    var t := MissTokens(tok, p.policy.sequenceTokens, r.input);
    if t.Tokens? && r.seqLen.Some? && ValidBudget(0, |t.tokens|, r.maxTokens, r.seqLen.value) {
      assert [] + t.tokens == t.tokens;
      if r.input.History? { ReplayReads(tok, p.policy.sequenceTokens, r.input.turns); }
      RunFaithful(tok, p1, r, Session([], r.seqLen.value, 0, [], 0, 0), 0, t.tokens);
    }
    hide Run, MissTokens, AllFaithful, Reads;
  }

  lemma CallFaithful(tok: Tokenizer, p: Pool, r: Request)
    requires Sound(p) && AllFaithful(tok, p) && WithinLimit(r)
    ensures AllFaithful(tok, Call(tok, p, r).pool) && RightAnswer(tok, r, Call(tok, p, r))
  {
    var p1 := Prune(p, r.now);
    FewerSound(p, p1.sessions);
    assert AllFaithful(tok, p1);
    hide AllFaithful, RightAnswer, CallHit, CallMiss;
    if Refusal(p, r).None? {
      if Hit(p1, r) {
        HitFaithful(tok, p1, r);
      } else {
        MissFaithful(tok, p1, r);
      }
    } else {
      Refused(tok, p, r);
    }
  }

  lemma Refused(tok: Tokenizer, p: Pool, r: Request)
    requires Sound(p) && Refusal(p, r).Some?
    ensures RightAnswer(tok, r, Call(tok, p, r)) && Call(tok, p, r).pool == p
  {
  }

  // ---- Runs ------------------------------------------------------------------------------------------------------------

  datatype Op = Init(policy: Policy, builds: bool) | Ask(request: Request) | Drop(key: string) | Stop

  ghost function Apply(tok: Tokenizer, p: Pool, op: Op): (q: Pool)
    requires Sound(p)
    ensures Sound(q)
  {
    match op
    case Init(policy, builds) => Initialize(p, policy, builds)
    case Ask(r) => CallSound(tok, p, r); Call(tok, p, r).pool
    case Drop(key) => FewerSound(p, p.sessions - {key}); Clear(p, key)
    case Stop => Shutdown(p)
  }

  ghost function After(tok: Tokenizer, ops: seq<Op>): (p: Pool)
    ensures Sound(p)
  {
    if ops == [] then EMPTY_POOL else Apply(tok, After(tok, ops[..|ops| - 1]), ops[|ops| - 1])
  }

  lemma {:induction false} AlwaysFaithful(tok: Tokenizer, ops: seq<Op>)
    requires forall i :: 0 <= i < |ops| && ops[i].Ask? ==> WithinLimit(ops[i].request)
    ensures AllFaithful(tok, After(tok, ops))
  {
    if ops != [] {
      var n := |ops| - 1;
      AlwaysFaithful(tok, ops[..n]);
      var p := After(tok, ops[..n]);
      if ops[n].Ask? { CallFaithful(tok, p, ops[n].request); }
      hide Faithful, Call;
    }
  }

  /** After any run, however caches were hit, evicted, expired, dropped or used incrementally, and
      whichever calls failed: an answered history call made the model read exactly the history it was
      given, it recorded that history with its answer, and no cache is past its capacity. */
  lemma Transparent(tok: Tokenizer, ops: seq<Op>, r: Request)
    requires forall i :: 0 <= i < |ops| && ops[i].Ask? ==> WithinLimit(ops[i].request)
    requires WithinLimit(r)
    ensures var p := After(tok, ops); var q := Call(tok, p, r);
      && (q.reply.Answered? && r.input.History? ==>
            && Reads(tok, q.reply.context, r.input.turns)
            && r.key in q.pool.sessions && q.pool.sessions[r.key].transcript == r.input.turns + [q.reply.answer])
      && forall k :: k in q.pool.sessions ==> q.pool.sessions[k].absPos <= q.pool.sessions[k].seqLen
  {
    AlwaysFaithful(tok, ops);
    CallFaithful(tok, After(tok, ops), r);
    hide Call, After, Reads;
    var q := Call(tok, After(tok, ops), r);
    forall k | k in q.pool.sessions ensures q.pool.sessions[k].absPos <= q.pool.sessions[k].seqLen {
      assert Faithful(tok, q.pool.sessions[k]);
    }
  }

  /** In every reachable state, also while a call allocates, there are at most `maxSessions` caches. */
  lemma PeakBounded(tok: Tokenizer, ops: seq<Op>, r: Request, tokens: seq<int>)
    ensures var p := After(tok, ops);
      && |p.sessions| <= p.policy.maxSessions
      && (Allocates(tok, p, r, tokens) ==>
            var at := Cleared(Prune(p, r.now), r.key);
            Call(tok, p, r) == Allocate(tok, at, r, tokens) && r.key !in at.sessions && |at.sessions| + 1 <= p.policy.maxSessions)
  {
    var p := After(tok, ops);
    hide After, Call, Allocates;
    if Allocates(tok, p, r, tokens) { AllocationPoint(tok, p, r, tokens); }
  }
}
