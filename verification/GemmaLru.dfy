/** Eviction is exactly least-recently-used. */
module GemmaLru {
  import opened GemmaPool
  import opened Recency

  // ---- The pool follows the list -------------------------------------------------------------------------------------

  /** The caches are those of the list, and were used in its order. */
  ghost predicate Tracks(s: Sessions, list: seq<string>) {
    && NoDup(list) && s.Keys == Elems(list)
    && forall i, j :: 0 <= i < j < |list| && list[i] in s && list[j] in s ==> s[list[i]].order > s[list[j]].order
  }

  /** The last of the list is the oldest. */
  lemma LastIsOldest(s: Sessions, list: seq<string>)
    requires Tracks(s, list) && list != []
    ensures s != map[] && Oldest(s) == list[|list| - 1]
    ensures Tracks(s - {Oldest(s)}, list[..|list| - 1])
  {
    var n := |list| - 1;
    var last := list[n];
    assert last in Elems(list) && last in s;
    var o := Oldest(s);
    assert o in Elems(list);
    var i :| 0 <= i < |list| && list[i] == o;
    assert i == n;
    assert list == list[..n] + [last];
    Joined(list[..n], [last]);
    assert (s - {last}).Keys == s.Keys - {last};
  }

  /** Making room for a key takes away that key, and the last of a full list. */
  lemma RoomTracks(s: Sessions, list: seq<string>, key: string, m: nat)
    requires Tracks(s, list) && |s| <= m && m > 0
    ensures var w := Without(list, key);
      Tracks(MakeRoom(s - {key}, m), if |w| < m then w else w[..m - 1])
  {
    WithoutTracks(s, list, key);
    FewerKeys(s - {key}, s);
    hide Tracks, MakeRoom;
    RoomLast(s - {key}, Without(list, key), m);
  }

  lemma RoomLast(s: Sessions, list: seq<string>, m: nat)
    requires Tracks(s, list) && |s| <= m && m > 0
    ensures Tracks(MakeRoom(s, m), if |list| < m then list else list[..m - 1])
  {
    Sized(s, list);
    MakeRoomOne(s, m);
    hide Tracks, MakeRoom;
    if |list| >= m { LastIsOldest(s, list); }
  }

  lemma Sized(s: Sessions, list: seq<string>)
    requires Tracks(s, list)
    ensures |s| == |list|
  {
    Distinct(list);
    assert |s| == |s.Keys|;
  }

  /** The later in the list, the earlier used. */
  ghost predicate Ordered(s: Sessions, list: seq<string>) {
    forall i, j :: 0 <= i < j < |list| && list[i] in s && list[j] in s ==> s[list[i]].order > s[list[j]].order
  }

  lemma OrderedFirst(s: Sessions, list: seq<string>, w: seq<string>)
    requires list != [] && Ordered(s, list) && Ordered(s, w) && forall k :: k in w ==> k in list[1..]
    ensures Ordered(s, [list[0]] + w)
  {
    var all := [list[0]] + w;
    forall i, j | 0 <= i < j < |all| && all[i] in s && all[j] in s ensures s[all[i]].order > s[all[j]].order {
      if i == 0 {
        assert all[j] in w;
        var m :| 0 <= m < |list[1..]| && list[1..][m] == all[j];
        assert list[m + 1] == all[j];
      } else {
        assert all[i] == w[i - 1] && all[j] == w[j - 1];
      }
    }
  }

  lemma Within(w: seq<string>, rest: seq<string>)
    requires Elems(w) <= Elems(rest)
    ensures forall k :: k in w ==> k in rest
  {
    forall k | k in w ensures k in rest {
      assert k in Elems(w);
      assert k in Elems(rest);
    }
  }

  lemma {:induction false} WithoutOrder(s: Sessions, list: seq<string>, key: string)
    requires NoDup(list) && Elems(list) <= s.Keys && Ordered(s, list)
    ensures Ordered(s, Without(list, key))
  {
    if list != [] {
      var rest, w := list[1..], Without(list[1..], key);
      Split(list);
      assert Ordered(s, rest);
      WithoutElems(rest, key);
      assert forall k :: k in w ==> k in rest by { Within(w, rest); }
      hide Ordered, NoDup, Elems;
      WithoutOrder(s, rest, key);
      OrderedFirst(s, list, w);
    }
  }

  lemma WithoutTracks(s: Sessions, list: seq<string>, key: string)
    requires Tracks(s, list)
    ensures Tracks(s - {key}, Without(list, key))
  {
    WithoutElems(list, key);
    WithoutOrder(s, list, key);
  }

  /** A used cache goes to the front. */
  lemma FrontTracks(s: Sessions, list: seq<string>, key: string, used: Session)
    requires Tracks(s, list) && key !in s && forall k :: k in s ==> s[k].order < used.order
    ensures Tracks(s[key := used], [key] + list)
  {
    Joined([key], list);
    assert Elems([key]) == {key};
    assert forall i :: 0 <= i < |list| ==> list[i] in Elems(list);
  }

  /** A call that is answered, with nothing expired. */
  ghost predicate Smooth(tok: Tokenizer, p: Pool, r: Request)
    requires Sound(p)
  {
    Prune(p, r.now) == p && Call(tok, p, r).reply.Answered?
  }

  /** The caches an answered run leaves: those it kept besides its own, and its own as the newest. */
  lemma RunLeaves(tok: Tokenizer, p: Pool, r: Request, s: Session, start: nat, tokens: seq<int>)
    requires Sound(p) && start <= |s.cells| && r.outcome.Some?
    ensures var q := Run(tok, p, r, s, start, tokens).pool;
      && r.key in q.sessions && q.sessions[r.key].order == p.accessOrder + 1
      && q.sessions == (p.sessions - {r.key})[r.key := q.sessions[r.key]]
  {
    var q := Run(tok, p, r, s, start, tokens).pool;
    assert q.sessions.Keys == (p.sessions - {r.key})[r.key := q.sessions[r.key]].Keys;
  }

  /** `q` has the key's cache as its newest, beside the others. */
  ghost predicate Leaves(q: Pool, rest: Sessions, key: string, order: nat) {
    && key in q.sessions && key !in rest && q.sessions == rest[key := q.sessions[key]]
    && q.sessions[key].order == order
  }

  lemma HitLeaves(tok: Tokenizer, p: Pool, r: Request)
    requires Sound(p) && p.loaded && Hit(p, r) && CallHit(tok, p, r).reply.Answered?
    ensures Leaves(CallHit(tok, p, r).pool, p.sessions - {r.key}, r.key, p.accessOrder + 1)
    ensures |p.sessions - {r.key}| < p.policy.maxSessions
  {
    var s := p.sessions[r.key];
    var t := AppendTurn(tok, p.policy.sequenceTokens, s.absPos, [], LastTurn(r.input), true);
    hide AppendTurn, LastTurn, Spoken;
    RunLeaves(tok, p, r, s, s.absPos, t.tokens);
    assert (p.sessions - {r.key}).Keys == p.sessions.Keys - {r.key};
    FewerKeys(p.sessions - {r.key}, p.sessions);
  }

  lemma MissLeaves(tok: Tokenizer, p: Pool, r: Request)
    requires Sound(p) && p.loaded && CallMiss(tok, p, r).reply.Answered?
    ensures Leaves(CallMiss(tok, p, r).pool, MakeRoom(p.sessions - {r.key}, p.policy.maxSessions), r.key, p.accessOrder + 1)
  {
    var room := MakeRoom(p.sessions - {r.key}, p.policy.maxSessions);
    var p1 := p.(sessions := room);
    FewerSound(p, room);
    assert r.key !in room && room - {r.key} == room;
    var t := MissTokens(tok, p.policy.sequenceTokens, r.input);
    hide MissTokens, MakeRoom, Spoken;
    RunLeaves(tok, p1, r, Session([], r.seqLen.value, 0, [], 0, 0), 0, t.tokens);
  }

  /** After an answered call the other caches are those left by making room, also when nothing had to
      be evicted. */
  lemma CallLeaves(tok: Tokenizer, p: Pool, r: Request)
    requires Sound(p) && Smooth(tok, p, r)
    ensures Leaves(Call(tok, p, r).pool, MakeRoom(p.sessions - {r.key}, p.policy.maxSessions), r.key, p.accessOrder + 1)
  {
    assert p.loaded;
    hide CallHit, CallMiss, Leaves, Hit;
    if Hit(p, r) {
      HitLeaves(tok, p, r);
      MakeRoomOne(p.sessions - {r.key}, p.policy.maxSessions);
    } else {
      MissLeaves(tok, p, r);
    }
  }

  lemma CallTracks(tok: Tokenizer, p: Pool, r: Request, list: seq<string>)
    requires Sound(p) && Smooth(tok, p, r) && Tracks(p.sessions, list)
    ensures Tracks(Call(tok, p, r).pool.sessions, Touch(list, r.key, p.policy.maxSessions))
  {
    var m := p.policy.maxSessions;
    SmoothLoaded(tok, p, r);
    CallLeaves(tok, p, r);
    hide *;
    LeavesTracks(p, Call(tok, p, r).pool, r.key, list);
  }

  lemma SmoothLoaded(tok: Tokenizer, p: Pool, r: Request)
    requires Sound(p) && Smooth(tok, p, r)
    ensures p.loaded
  {
  }

  lemma TouchIs(list: seq<string>, key: string, m: nat)
    requires m > 0
    ensures var w := Without(list, key);
      Touch(list, key, m) == [key] + if |w| < m then w else w[..m - 1]
  {
    hide Without;
  }

  lemma RoomOrders(p: Pool, key: string)
    requires Sound(p) && p.loaded
    ensures var rest := MakeRoom(p.sessions - {key}, p.policy.maxSessions);
      forall k :: k in rest ==> rest[k].order < p.accessOrder + 1
  {
    hide MakeRoom;
  }

  lemma LeavesTracks(p: Pool, q: Pool, key: string, list: seq<string>)
    requires Sound(p) && p.loaded && Tracks(p.sessions, list)
    requires Leaves(q, MakeRoom(p.sessions - {key}, p.policy.maxSessions), key, p.accessOrder + 1)
    ensures Tracks(q.sessions, Touch(list, key, p.policy.maxSessions))
  {
    var m := p.policy.maxSessions;
    assert |p.sessions| <= m && m > 0;
    RoomOrders(p, key);
    TouchIs(list, key, m);
    hide MakeRoom, Tracks, Without, Touch, Sound;
    RoomTracks(p.sessions, list, key, m);
    var w := Without(list, key);
    FrontTracks(MakeRoom(p.sessions - {key}, m), if |w| < m then w else w[..m - 1], key, q.sessions[key]);
  }

  // ---- Runs ------------------------------------------------------------------------------------------------------------

  ghost function Calls(tok: Tokenizer, p: Pool, rs: seq<Request>): (q: Pool)
    requires Sound(p)
    ensures Sound(q)
  {
    if rs == [] then p
    else
      var p1 := Calls(tok, p, rs[..|rs| - 1]);
      CallSound(tok, p1, rs[|rs| - 1]);
      Call(tok, p1, rs[|rs| - 1]).pool
  }

  ghost predicate AllSmooth(tok: Tokenizer, p: Pool, rs: seq<Request>)
    requires Sound(p)
  {
    rs != [] ==> AllSmooth(tok, p, rs[..|rs| - 1]) && Smooth(tok, Calls(tok, p, rs[..|rs| - 1]), rs[|rs| - 1])
  }

  function KeysOf(rs: seq<Request>): (keys: seq<string>)
    ensures |keys| == |rs|
  {
    if rs == [] then [] else KeysOf(rs[..|rs| - 1]) + [rs[|rs| - 1].key]
  }

  lemma {:induction false} CallsTrack(tok: Tokenizer, p: Pool, rs: seq<Request>)
    requires Sound(p) && p.loaded && p.sessions == map[] && AllSmooth(tok, p, rs)
    ensures Calls(tok, p, rs).policy == p.policy && Calls(tok, p, rs).loaded
    ensures Tracks(Calls(tok, p, rs).sessions, Take(Recent(KeysOf(rs)), p.policy.maxSessions))
  {
    hide Call, Smooth, Touch;
    if rs != [] {
      var n, m := |rs| - 1, p.policy.maxSessions;
      CallsTrack(tok, p, rs[..n]);
      var p1, keys := Calls(tok, p, rs[..n]), KeysOf(rs[..n]);
      CallTracks(tok, p1, rs[n], Take(Recent(keys), m));
      PolicyKept(tok, p1, rs[n]);
      RecentNoDup(keys);
      TouchTake(Recent(keys), rs[n].key, m);
      assert KeysOf(rs)[..n] == keys;
    }
  }

  /** After any run of answered calls with nothing expired, from an empty loaded pool: a key is cached
      exactly when it was used and fewer than `maxSessions` other keys were used since its last use. */
  lemma LruExact(tok: Tokenizer, p: Pool, rs: seq<Request>, k: string)
    requires Sound(p) && p.loaded && p.sessions == map[] && AllSmooth(tok, p, rs)
    ensures k in Calls(tok, p, rs).sessions <==>
      k in KeysOf(rs) && |KeysSince(KeysOf(rs), k)| < p.policy.maxSessions
  {
    CallsTrack(tok, p, rs);
    TopKeys(KeysOf(rs), p.policy.maxSessions, k);
    hide Calls, Recent, KeysSince;
    var top := Take(Recent(KeysOf(rs)), p.policy.maxSessions);
    assert k in top <==> k in Elems(top);
  }
}
