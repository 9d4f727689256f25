/** Which calls of the local model are answered, with what text, on which tokens, and what they leave
    of the other caches. */
module GemmaAnswers {
  import opened Optional
  import opened GemmaPool
  import opened GemmaTransparency

  // ---- The text of an answer --------------------------------------------------------------------------------

  function Joined(pieces: seq<string>): string { if pieces == [] then "" else pieces[0] + Joined(pieces[1..]) }

  lemma {:induction false} JoinedLast(pieces: seq<string>)
    requires pieces != []
    ensures Joined(pieces) == Joined(pieces[..|pieces| - 1]) + pieces[|pieces| - 1]
  {
    var front, last := pieces[..|pieces| - 1], pieces[|pieces| - 1];
    JoinedFirst(pieces);
    if |pieces| == 1 {
      JoinedNone(pieces[1..], front);
      assert last + "" == "" + last;
    } else {
      assert front[0] == pieces[0] && front[1..] == pieces[1..][..|pieces| - 2];
      hide Joined;
      JoinedFirst(front);
      JoinedLast(pieces[1..]);
      Associate(pieces[0], Joined(front[1..]), last);
    }
  }

  lemma JoinedFirst(pieces: seq<string>)
    requires pieces != []
    ensures Joined(pieces) == pieces[0] + Joined(pieces[1..])
  {
  }

  lemma JoinedNone(a: seq<string>, b: seq<string>)
    requires a == [] && b == []
    ensures Joined(a) == "" && Joined(b) == ""
  {
  }

  lemma Associate(a: string, b: string, c: string)
    ensures a + (b + c) == a + b + c
  {
  }

  /** What each generated token adds to the answer: its text, or nothing if it ends the sequence or has
      no text. */
  ghost predicate Heard(tok: Tokenizer, tokens: seq<int>, pieces: seq<string>) {
    |pieces| == |tokens| && forall i :: 0 <= i < |tokens| ==>
      match tok.decode(tokens[i])
      case None => pieces[i] == ""
      case Some(text) => pieces[i] == if tok.eos(tokens[i]) then "" else text
  }

  lemma {:induction false} SpokenHeard(tok: Tokenizer, tokens: seq<int>, pieces: seq<string>)
    requires Heard(tok, tokens, pieces)
    ensures Spoken(tok, tokens) == Joined(pieces)
  {
    if tokens != [] {
      var n := |tokens| - 1;
      SpokenHeard(tok, tokens[..n], pieces[..n]);
      JoinedLast(pieces);
    }
  }

  /** The answer is the text of the generated tokens, one after the other. */
  lemma AnswerHeard(tok: Tokenizer, p: Pool, r: Request, generated: seq<int>, pieces: seq<string>)
    requires Sound(p) && Call(tok, p, r).reply.Answered? && r.outcome == Some(generated) && Heard(tok, generated, pieces)
    ensures Call(tok, p, r).reply.answer == Joined(pieces)
  {
    SpokenHeard(tok, generated, pieces);
    LeftBehind(tok, p, r);
    hide Call, Spoken;
  }

  // ---- The tokens of a replay ----------------------------------------------------------------------------------

  /** All turns tokenised one after the other: user turns wrapped where they stand, the others plain. */
  ghost function Laid(tok: Tokenizer, turns: seq<string>): seq<int> {
    if turns == [] then []
    else
      var n := |turns| - 1;
      var before := Laid(tok, turns[..n]);
      before + if n % 2 == 0 then tok.wrap(|before|, turns[n])
               else match tok.encode(turns[n]) case None => [] case Some(plain) => plain
  }

  ghost predicate Encodable(tok: Tokenizer, turns: seq<string>) { forall t :: t in turns ==> tok.encode(t).Some? }

  /** A replay succeeds exactly if every turn can be encoded and all of them fit the limit. */
  lemma {:induction false} ReplayExact(tok: Tokenizer, limit: nat, turns: seq<string>)
    ensures Replay(tok, limit, turns).Tokens? <==> Encodable(tok, turns) && |Laid(tok, turns)| <= limit
    ensures Replay(tok, limit, turns).Tokens? ==> Replay(tok, limit, turns).tokens == Laid(tok, turns)
  {
    if turns != [] {
      var n := |turns| - 1;
      ReplayExact(tok, limit, turns[..n]);
      assert turns == turns[..n] + [turns[n]];
      assert Encodable(tok, turns) <==> Encodable(tok, turns[..n]) && tok.encode(turns[n]).Some?;
    }
  }

  // ---- Which calls are answered -----------------------------------------------------------------------------------

  /** The key has a cache that is not idle too long and serves this input: any input but a history, or the
      history it recorded and one more turn. */
  ghost predicate Serves(p: Pool, r: Request) {
    && r.key in p.sessions && r.now < p.sessions[r.key].lastUsed + p.policy.idleTtl
    && (r.input.History? ==>
          exists last :: p.sessions[r.key].transcript != [] && r.input.turns == p.sessions[r.key].transcript + [last])
  }

  lemma ServesIsHit(p: Pool, r: Request)
    ensures Serves(p, r) <==> Hit(Prune(p, r.now), r)
  {
    if Hit(Prune(p, r.now), r) && r.input.History? {
      var turns := r.input.turns;
      assert turns == p.sessions[r.key].transcript + [turns[|turns| - 1]];
    }
    if Serves(p, r) && r.input.History? {
      var last :| r.input.turns == p.sessions[r.key].transcript + [last];
      assert r.input.turns[..|r.input.turns| - 1] == p.sessions[r.key].transcript;
    }
  }

  ghost predicate WellFormed(p: Pool, r: Request) {
    p.loaded && r.key != "" && r.maxTokens > 0 && r.temperatureOk && (r.input.History? ==> |r.input.turns| % 2 == 1)
  }

  /** The text of the turn that is added to a cache, and the tokens a new cache starts from. */
  ghost function NewText(input: Input): string {
    match input
    case Incremental(text) => text
    case History(turns) => if turns == [] then "" else turns[|turns| - 1]
  }

  ghost function Turns(input: Input): seq<string> {
    match input
    case Incremental(text) => [text]
    case History(turns) => turns
  }

  /** There is room for a prompt and everything that may be generated. */
  ghost predicate Room(start: nat, prompt: nat, generated: nat, capacity: nat) { prompt > 0 && start + prompt + generated <= capacity }

  /** The tokens the model has read when it starts to answer: those of the cache and the new turn, or all
      turns from the beginning. */
  ghost function Context(tok: Tokenizer, p: Pool, r: Request): seq<int> {
    if Serves(p, r) then p.sessions[r.key].cells + tok.wrap(|p.sessions[r.key].cells|, NewText(r.input))
    else Laid(tok, Turns(r.input))
  }

  /** The prompt of a call can be encoded and fits its cache. */
  ghost predicate Fits(tok: Tokenizer, p: Pool, r: Request) {
    if Serves(p, r) then
      var s := p.sessions[r.key];
      var prompt := |tok.wrap(|s.cells|, NewText(r.input))|;
      tok.encode(NewText(r.input)).Some? && prompt <= p.policy.sequenceTokens && Room(|s.cells|, prompt, r.maxTokens, s.seqLen)
    else
      var prompt := |Laid(tok, Turns(r.input))|;
      && Encodable(tok, Turns(r.input)) && Room(0, prompt, r.maxTokens, p.policy.sequenceTokens)
      && r.seqLen.Some? && Room(0, prompt, r.maxTokens, r.seqLen.value)
  }

  lemma OneTurn(tok: Tokenizer, limit: nat, text: string)
    ensures var t := AppendTurn(tok, limit, 0, [], text, true);
      && (t.Tokens? <==> Encodable(tok, [text]) && |Laid(tok, [text])| <= limit)
      && (t.Tokens? ==> t.tokens == Laid(tok, [text]))
  {
    assert [text][..0] == [];
    assert Encodable(tok, [text]) <==> tok.encode(text).Some? by { assert text in [text]; }
    assert Laid(tok, [text]) == [] + tok.wrap(0, text) == tok.wrap(0, text);
  }

  lemma MissTokensExact(tok: Tokenizer, limit: nat, input: Input)
    ensures var t := MissTokens(tok, limit, input);
      && (t.Tokens? <==> Encodable(tok, Turns(input)) && |Laid(tok, Turns(input))| <= limit)
      && (t.Tokens? ==> t.tokens == Laid(tok, Turns(input)))
  {
    match input
    case Incremental(text) => OneTurn(tok, limit, text);
    case History(turns) => ReplayExact(tok, limit, turns);
  }

  /** The three ways a call goes. */
  lemma CallCases(tok: Tokenizer, p: Pool, r: Request)
    requires Sound(p)
    ensures var p1 := Prune(p, r.now);
      && Sound(p1) && p1.policy == p.policy && (Hit(p1, r) ==> r.key in p.sessions && p1.sessions[r.key] == p.sessions[r.key])
      && (WellFormed(p, r) ==> p.policy.maxSessions > 0)
      && (!WellFormed(p, r) ==> Call(tok, p, r).pool == p && Call(tok, p, r).reply.Rejected?)
      && (WellFormed(p, r) && Hit(p1, r) ==> Call(tok, p, r) == CallHit(tok, p1, r))
      && (WellFormed(p, r) && !Hit(p1, r) ==> Call(tok, p, r) == CallMiss(tok, p1, r))
  {
    PrunedSound(p, r);
    RefusalIs(p, r);
    hide CallHit, CallMiss, Hit, Prune, WellFormed, Refusal;
    SoundAligned(p);
    assert p.loaded ==> p.policy.maxSessions > 0;
  }

  lemma PrunedSound(p: Pool, r: Request)
    requires Sound(p)
    ensures var p1 := Prune(p, r.now);
      Sound(p1) && p1.policy == p.policy && (Hit(p1, r) ==> r.key in p.sessions && p1.sessions[r.key] == p.sessions[r.key])
  {
    FewerSound(p, Prune(p, r.now).sessions);
    hide Sound;
  }

  lemma RefusalIs(p: Pool, r: Request)
    ensures WellFormed(p, r) <==> Refusal(p, r).None?
    ensures WellFormed(p, r) ==> p.loaded
  {
  }

  lemma SoundAligned(p: Pool)
    requires Sound(p)
    ensures Aligned(p)
  {
    hide Aligned;
  }

  /** A call is answered exactly if it is well-formed, its prompt fits, and the engine does not fail; the
      model then has read the cached conversation and the new turn, or all turns anew, and nothing else. */
  lemma AnsweredExactly(tok: Tokenizer, p: Pool, r: Request)
    requires Sound(p)
    ensures Call(tok, p, r).reply.Answered? <==> WellFormed(p, r) && Fits(tok, p, r) && r.outcome.Some?
    ensures Call(tok, p, r).reply.Answered? ==> Call(tok, p, r).reply.context == Context(tok, p, r)
  {
    var p1 := Prune(p, r.now);
    ServesIsHit(p, r);
    CallCases(tok, p, r);
    SoundAligned(p1);
    hide CallHit, CallMiss, Call, Hit, Sound, Aligned, Laid, Encodable, Serves, WellFormed, Prune;
    if WellFormed(p, r) {
      if Hit(p1, r) { HitExact(tok, p1, r); } else { MissExact(tok, p1, r); }
    }
  }

  lemma HitExact(tok: Tokenizer, p: Pool, r: Request)
    requires Aligned(p) && Hit(p, r)
    ensures var s, q := p.sessions[r.key], CallHit(tok, p, r).reply; var part := tok.wrap(|s.cells|, NewText(r.input));
      && (q.Answered? <==>
            && tok.encode(NewText(r.input)).Some? && |part| <= p.policy.sequenceTokens
            && Room(|s.cells|, |part|, r.maxTokens, s.seqLen) && r.outcome.Some?)
      && (q.Answered? ==> q.context == s.cells + part)
  {
    var s := p.sessions[r.key];
    var part := tok.wrap(|s.cells|, NewText(r.input));
    assert s.cells[..|s.cells|] == s.cells && [] + part == part;
    hide Hit, Spoken;
  }

  lemma MissExact(tok: Tokenizer, p: Pool, r: Request)
    requires p.policy.maxSessions > 0
    ensures var q := CallMiss(tok, p, r).reply; var ts := Laid(tok, Turns(r.input));
      && (q.Answered? <==>
            && Encodable(tok, Turns(r.input)) && Room(0, |ts|, r.maxTokens, p.policy.sequenceTokens)
            && r.seqLen.Some? && Room(0, |ts|, r.maxTokens, r.seqLen.value) && r.outcome.Some?)
      && (q.Answered? ==> q.context == ts)
  {
    MissTokensExact(tok, p.policy.sequenceTokens, r.input);
    var ts := Laid(tok, Turns(r.input));
    assert [] + ts == ts;
    hide MissTokens, MakeRoom, Spoken, Laid, Encodable;
  }

  /** A refused call names its error and touches nothing. */
  lemma RefusedExactly(tok: Tokenizer, p: Pool, r: Request)
    requires Sound(p) && !WellFormed(p, r)
    ensures var q := Call(tok, p, r);
      && q.pool == p
      && q.reply == Rejected(if !p.loaded then NotLoaded
                             else if r.key == "" || r.maxTokens == 0 || !r.temperatureOk then BadRequest else BadHistory)
  {
  }

  // ---- A conversation goes on ----------------------------------------------------------------------------------------

  ghost function Asked(tok: Tokenizer, p: Pool, r: Request): (q: Result)
    requires Sound(p)
    ensures Sound(q.pool)
  {
    CallSound(tok, p, r);
    Call(tok, p, r)
  }

  /** The next question of an answered conversation, asked before its cache expires, continues the cache:
      the model reads the new turn only, after everything it has read and said. */
  lemma FollowUp(tok: Tokenizer, p: Pool, r: Request, question: string, next: Request)
    requires Sound(p) && r.input.History? && Asked(tok, p, r).reply.Answered?
    requires var q := Asked(tok, p, r);
      && next.key == r.key && next.input == History(r.input.turns + [q.reply.answer, question])
      && next.now < r.finished + p.policy.idleTtl && Asked(tok, q.pool, next).reply.Answered?
    ensures r.outcome.Some?
    ensures var q := Asked(tok, p, r); var cells := q.reply.context + r.outcome.value;
      Asked(tok, q.pool, next).reply.context == cells + tok.wrap(|cells|, question)
  {
    var q := Asked(tok, p, r);
    LeftBehind(tok, p, r);
    PolicyKept(tok, p, r);
    AnsweredExactly(tok, q.pool, next);
    hide Call, Sound, Laid, Encodable, Spoken, WellFormed, Fits;
    var s := q.pool.sessions[r.key];
    var turns := next.input.turns;
    assert turns == s.transcript + [question];
    assert turns[|turns| - 1] == question;
    assert Serves(q.pool, next);
  }

  /** An answered call leaves in its cache what was read and said, when, and what it stands for. */
  ghost predicate Left(tok: Tokenizer, r: Request, q: Result) {
    q.reply.Answered? ==>
      && r.outcome.Some? && q.reply.answer == Spoken(tok, r.outcome.value) && r.key in q.pool.sessions
      && var s := q.pool.sessions[r.key];
        && s.cells == q.reply.context + r.outcome.value && s.lastUsed == r.finished
        && s.transcript == if r.input.History? then r.input.turns + [q.reply.answer] else []
  }

  lemma RunLeft(tok: Tokenizer, p: Pool, r: Request, s: Session, start: nat, tokens: seq<int>)
    requires start <= |s.cells|
    ensures Left(tok, r, Run(tok, p, r, s, start, tokens))
  {
    hide Spoken;
  }

  lemma LeftBehind(tok: Tokenizer, p: Pool, r: Request)
    requires Sound(p)
    ensures Left(tok, r, Call(tok, p, r))
  {
    CallCases(tok, p, r);
    hide *;
    var p1 := Prune(p, r.now);
    SoundAligned(p1);
    if WellFormed(p, r) {
      if Hit(p1, r) { HitLeft(tok, p1, r); } else { MissLeft(tok, p1, r); }
    } else {
      RejectedLeft(tok, r, Call(tok, p, r));
    }
  }

  lemma RejectedLeft(tok: Tokenizer, r: Request, q: Result)
    requires q.reply.Rejected?
    ensures Left(tok, r, q)
  {
  }

  lemma HitLeft(tok: Tokenizer, p: Pool, r: Request)
    requires Aligned(p) && Hit(p, r)
    ensures Left(tok, r, CallHit(tok, p, r))
  {
    var s := p.sessions[r.key];
    var t := AppendTurn(tok, p.policy.sequenceTokens, s.absPos, [], LastTurn(r.input), true);
    if t.Tokens? { RunLeft(tok, p, r, s, s.absPos, t.tokens); }
    hide Left, Run, AppendTurn;
  }

  lemma MissLeft(tok: Tokenizer, p: Pool, r: Request)
    requires p.policy.maxSessions > 0
    ensures Left(tok, r, CallMiss(tok, p, r))
  {
    var t := MissTokens(tok, p.policy.sequenceTokens, r.input);
    if t.Tokens? && r.seqLen.Some? {
      RunLeft(tok, Cleared(p, r.key), r, Session([], r.seqLen.value, 0, [], 0, 0), 0, t.tokens);
    }
    hide Left, Run, MissTokens, MakeRoom;
  }

  // ---- What becomes of the other caches ------------------------------------------------------------------------------

  /** A well-formed call drops every cache idle for the limit or longer, and changes no other one; and
      while there are fewer live caches of others than the bound, it drops none of those. */
  lemma OthersKept(tok: Tokenizer, p: Pool, r: Request, k: string)
    requires Sound(p) && WellFormed(p, r) && k != r.key
    ensures var q := Call(tok, p, r).pool;
      && (k in q.sessions ==> k in p.sessions && r.now - p.sessions[k].lastUsed < p.policy.idleTtl && q.sessions[k] == p.sessions[k])
      && (k in Live(p, r.now) && |Live(p, r.now) - {r.key}| < p.policy.maxSessions ==> k in q.sessions)
  {
    var p1 := Prune(p, r.now);
    CallCases(tok, p, r);
    LivePruned(p, r.now, r.key, k);
    SoundAligned(p1);
    hide *;
    if Hit(p1, r) { HitOthers(tok, p1, r, k); } else { MissOthers(tok, p1, r, k); }
  }

  lemma LivePruned(p: Pool, now: int, key: string, k: string)
    ensures var s := Prune(p, now).sessions;
      && |s - {key}| == |Live(p, now) - {key}| && (k in s <==> k in Live(p, now))
      && (k in s ==> k in p.sessions && now - p.sessions[k].lastUsed < p.policy.idleTtl && s[k] == p.sessions[k])
  {
    var s := Prune(p, now).sessions;
    assert s.Keys == Live(p, now);
    assert (s - {key}).Keys == Live(p, now) - {key};
  }

  ghost function Live(p: Pool, now: int): set<string> {
    set k | k in p.sessions && now - p.sessions[k].lastUsed < p.policy.idleTtl
  }

  lemma HitOthers(tok: Tokenizer, p: Pool, r: Request, k: string)
    requires Aligned(p) && Hit(p, r) && k != r.key
    ensures var q := CallHit(tok, p, r).pool; (k in q.sessions <==> k in p.sessions) && (k in p.sessions ==> q.sessions[k] == p.sessions[k])
  {
    hide Spoken, AppendTurn, Hit;
  }

  lemma MissOthers(tok: Tokenizer, p: Pool, r: Request, k: string)
    requires p.policy.maxSessions > 0 && k != r.key
    ensures var q := CallMiss(tok, p, r).pool;
      && (k in q.sessions ==> k in p.sessions && q.sessions[k] == p.sessions[k])
      && (k in p.sessions && |p.sessions - {r.key}| < p.policy.maxSessions ==> k in q.sessions)
  {
    var at, t := Cleared(p, r.key), MissTokens(tok, p.policy.sequenceTokens, r.input);
    RoomKeeps(p.sessions - {r.key}, p.policy.maxSessions, k);
    if t.Tokens? { AllocateOthers(tok, at, r, t.tokens, k); }
    hide Allocate, MakeRoom, MissTokens;
  }

  lemma RoomKeeps(s: Sessions, max: nat, k: string)
    requires max > 0
    ensures k in MakeRoom(s, max) ==> k in s && MakeRoom(s, max)[k] == s[k]
    ensures k in s && |s| < max ==> k in MakeRoom(s, max)
  {
  }

  lemma AllocateOthers(tok: Tokenizer, p: Pool, r: Request, tokens: seq<int>, k: string)
    requires k != r.key
    ensures var q := Allocate(tok, p, r, tokens).pool; (k in q.sessions <==> k in p.sessions) && (k in p.sessions ==> q.sessions[k] == p.sessions[k])
  {
    hide Spoken;
  }

  /** A call whose engine or token callback fails leaves no cache under its key: what it held is not to be
      trusted. A call that is not answered otherwise leaves the key's cache as it was, or none. */
  lemma FailureForgets(tok: Tokenizer, p: Pool, r: Request)
    requires Sound(p) && Call(tok, p, r).reply.Rejected?
    ensures var q := Call(tok, p, r);
      && (q.reply == Rejected(EngineFailed) ==> r.key !in q.pool.sessions)
      && (r.key in q.pool.sessions ==> r.key in p.sessions && q.pool.sessions[r.key] == p.sessions[r.key])
      && (WellFormed(p, r) && Fits(tok, p, r) && r.outcome.None? ==> q.reply == Rejected(EngineFailed))
  {
    var p1 := Prune(p, r.now);
    CallCases(tok, p, r);
    SoundAligned(p1);
    ServesIsHit(p, r);
    PrunedKey(p, r.now, r.key);
    hide Call, CallHit, CallMiss, Hit, Sound, Aligned, Laid, Encodable, Serves, Prune;
    if WellFormed(p, r) {
      if Hit(p1, r) {
        HitForgets(tok, p1, r);
        if Fits(tok, p, r) && r.outcome.None? { HitFails(tok, p1, r); }
      } else {
        MissForgets(tok, p1, r);
        if Fits(tok, p, r) && r.outcome.None? { MissFails(tok, p1, r); }
      }
    } else {
      RefusedExactly(tok, p, r);
    }
  }

  lemma PrunedKey(p: Pool, now: int, key: string)
    ensures var s := Prune(p, now).sessions; key in s ==> key in p.sessions && s[key] == p.sessions[key]
  {
  }

  /** What a failed call leaves under its key. */
  ghost predicate Forgets(p: Pool, key: string, q: Result) {
    q.reply.Rejected? ==>
      && (q.reply == Rejected(EngineFailed) ==> key !in q.pool.sessions)
      && (key in q.pool.sessions ==> key in p.sessions && q.pool.sessions[key] == p.sessions[key])
  }

  lemma RunForgets(tok: Tokenizer, p: Pool, r: Request, s: Session, start: nat, tokens: seq<int>)
    requires start <= |s.cells|
    ensures Forgets(p, r.key, Run(tok, p, r, s, start, tokens))
    ensures r.outcome.None? ==> Run(tok, p, r, s, start, tokens).reply == Rejected(EngineFailed)
  {
    hide Spoken;
  }

  lemma {:induction false} ReplayError(tok: Tokenizer, limit: nat, turns: seq<string>)
    ensures Replay(tok, limit, turns).Bad? ==> Replay(tok, limit, turns).error != EngineFailed
  {
    if turns != [] { ReplayError(tok, limit, turns[..|turns| - 1]); }
  }

  lemma HitForgets(tok: Tokenizer, p: Pool, r: Request)
    requires Aligned(p) && Hit(p, r)
    ensures Forgets(p, r.key, CallHit(tok, p, r))
  {
    var s := p.sessions[r.key];
    var t := AppendTurn(tok, p.policy.sequenceTokens, s.absPos, [], LastTurn(r.input), true);
    if t.Tokens? { RunForgets(tok, p, r, s, s.absPos, t.tokens); }
    hide Hit, Run;
  }

  lemma HitFails(tok: Tokenizer, p: Pool, r: Request)
    requires Aligned(p) && Hit(p, r) && r.outcome.None?
    requires var s := p.sessions[r.key]; var part := tok.wrap(|s.cells|, NewText(r.input));
      && tok.encode(NewText(r.input)).Some? && |part| <= p.policy.sequenceTokens
      && Room(|s.cells|, |part|, r.maxTokens, s.seqLen)
    ensures CallHit(tok, p, r).reply == Rejected(EngineFailed)
  {
    var s := p.sessions[r.key];
    var part := tok.wrap(|s.cells|, NewText(r.input));
    assert [] + part == part;
    RunForgets(tok, p, r, s, s.absPos, part);
    hide Hit, Run;
  }

  lemma MissForgets(tok: Tokenizer, p: Pool, r: Request)
    requires p.policy.maxSessions > 0
    ensures Forgets(p, r.key, CallMiss(tok, p, r))
  {
    var at, t := Cleared(p, r.key), MissTokens(tok, p.policy.sequenceTokens, r.input);
    MissError(tok, p.policy.sequenceTokens, r.input);
    ClearedKey(p, r.key);
    if t.Tokens? {
      AllocateForgets(tok, at, r, t.tokens);
      ForgetsBefore(p, at, r.key, Allocate(tok, at, r, t.tokens));
    }
    hide Allocate, Cleared, MissTokens;
  }

  lemma ClearedKey(p: Pool, key: string)
    requires p.policy.maxSessions > 0
    ensures key !in Cleared(p, key).sessions
  {
    RoomKeeps(p.sessions - {key}, p.policy.maxSessions, key);
    hide MakeRoom;
  }

  lemma ForgetsBefore(p: Pool, at: Pool, key: string, q: Result)
    requires key !in at.sessions && Forgets(at, key, q)
    ensures Forgets(p, key, q)
  {
  }

  lemma MissError(tok: Tokenizer, limit: nat, input: Input)
    ensures MissTokens(tok, limit, input).Bad? ==> MissTokens(tok, limit, input).error != EngineFailed
  {
    if input.History? { ReplayError(tok, limit, input.turns); }
    hide Replay;
  }

  lemma AllocateForgets(tok: Tokenizer, p: Pool, r: Request, tokens: seq<int>)
    ensures Forgets(p, r.key, Allocate(tok, p, r, tokens))
  {
    if r.seqLen.Some? { RunForgets(tok, p, r, Session([], r.seqLen.value, 0, [], 0, 0), 0, tokens); }
    hide Run;
  }

  lemma MissFails(tok: Tokenizer, p: Pool, r: Request)
    requires p.policy.maxSessions > 0 && r.outcome.None? && Encodable(tok, Turns(r.input))
    requires var ts := Laid(tok, Turns(r.input));
      && Room(0, |ts|, r.maxTokens, p.policy.sequenceTokens) && r.seqLen.Some? && Room(0, |ts|, r.maxTokens, r.seqLen.value)
    ensures CallMiss(tok, p, r).reply == Rejected(EngineFailed)
  {
    MissTokensExact(tok, p.policy.sequenceTokens, r.input);
    RunForgets(tok, Cleared(p, r.key), r, Session([], r.seqLen.value, 0, [], 0, 0), 0, Laid(tok, Turns(r.input)));
    hide Run, MissTokens, MakeRoom, Laid, Encodable;
  }

  /** Clearing a conversation drops its cache and no other; stopping drops all of them and the model. */
  lemma Dropped(p: Pool, key: string)
    ensures Clear(p, key) == p.(sessions := map k | k in p.sessions && k != key :: p.sessions[k])
    ensures Shutdown(p) == Pool(false, p.policy, map[], 0)
  {
    assert (p.sessions - {key}).Keys == p.sessions.Keys - {key};
  }

  /** A pool is loaded by a policy exactly if it is not loaded yet, the policy keeps at least one cache for
      some time, of 32 to 8192 tokens in steps of 32, and the model can be built; then it has that policy
      and no caches but those it had. */
  lemma LoadedExactly(p: Pool, policy: Policy, builds: bool)
    requires !p.loaded
    ensures var q := Initialize(p, policy, builds);
      && (q.loaded <==>
            && builds && policy.maxSessions >= 1 && policy.idleTtl >= 1
            && exists n :: 1 <= n <= 256 && policy.sequenceTokens == 32 * n)
      && (q.loaded ==> q == p.(loaded := true, policy := policy)) && (!q.loaded ==> q == p)
  {
    if policy.sequenceTokens % 32 == 0 { assert policy.sequenceTokens == 32 * (policy.sequenceTokens / 32); }
  }
}
