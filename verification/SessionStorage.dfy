/** Sessions and their storages as objects updated in place. Every call reads the clock as `now`. */
module SessionStorage {
  import opened Finite
  import opened SessionStore

  class Session {
    const sessionId: string
    const maxAge: int
    var expiryTime: int
    var data: map<string, string>
    var updateStorage: MemorySessionStorage?

    function Snapshot(): Entry<Session>
      reads `expiryTime
    {
      Entry(this, maxAge, expiryTime)
    }

    constructor (id: string, age: int, storage: MemorySessionStorage?, now: int)
      ensures sessionId == id && maxAge == age && updateStorage == storage && data == map[]
      ensures Snapshot() == Entry(this, age, now + age * 1_000_000_000)
    {
      sessionId, maxAge, updateStorage, data := id, age, storage, map[];
      expiryTime := now + age * SECOND;
    }

    method IsExpired(now: int) returns (expired: bool)
      ensures expired == !Alive(Snapshot(), now)
    {
      return now >= expiryTime;
    }

    method Refresh(now: int)
      modifies `expiryTime
      ensures Snapshot() == Refreshed(old(Snapshot()), now)
    {
      expiryTime := now + maxAge * SECOND;
    }

    /** Rebinds the storage that later writes report to. */
    method SetManager(storage: MemorySessionStorage?)
      modifies `updateStorage
      ensures updateStorage == storage
    {
      updateStorage := storage;
    }

    /** Writes a value, then tells the bound storage, which never takes the session in by this. */
    method SetValue(key: string, value: string, now: int)
      requires updateStorage != null ==> updateStorage.Valid()
      modifies `data, updateStorage
      ensures data == old(data)[key := value]
      ensures updateStorage != null ==>
        && updateStorage.Valid()
        && updateStorage.View() == DoUpdate(old(updateStorage.View()), sessionId, this, now).store
    {
      data := data[key := value];
      if updateStorage != null { var _ := updateStorage.UpdateExisting(this, now); }
    }

    method GetValue(key: string) returns (value: string)
      ensures value == if key in data then data[key] else ""
    {
      return if key in data then data[key] else "";
    }

    method Remove(key: string)
      modifies `data
      ensures data == old(data) - {key}
    {
      data := data - {key};
    }

    method Clear()
      modifies `data
      ensures data == map[]
    {
      data := map[];
    }
  }

  class MemorySessionStorage {
    const capacity: nat
    var sessions: map<string, Session>

    ghost predicate Valid()
      reads `sessions
    {
      capacity > 0 && |sessions| <= capacity && forall k :: k in sessions ==> sessions[k].sessionId == k
    }

    ghost function View(): (m: Store<Session>)
      reads `sessions, sessions.Values`expiryTime
      ensures m.Keys == sessions.Keys && |m| == |sessions|
      ensures forall k :: k in sessions ==> m[k] == sessions[k].Snapshot()
    {
      var m := map k | k in sessions :: sessions[k].Snapshot();
      assert m.Keys == sessions.Keys && |m| == |m.Keys| && |sessions| == |sessions.Keys|;
      m
    }

    constructor (limit: nat)
      requires limit > 0
      ensures Valid() && View() == map[] && capacity == limit
    {
      capacity, sessions := limit, map[];
    }

    /** The sweep, entry by entry. */
    method Sweep(now: int)
      modifies `sessions
      ensures sessions.Keys <= old(sessions).Keys && forall k :: k in sessions ==> sessions[k] == old(sessions)[k]
      ensures forall k :: k in old(sessions) ==> (k in sessions <==> now < old(sessions)[k].expiryTime)
    {
      var todo := sessions.Keys;
      while todo != {}
        invariant todo <= sessions.Keys <= old(sessions).Keys
        invariant forall k :: k in sessions ==> sessions[k] == old(sessions)[k]
        invariant forall k :: k in old(sessions) && k !in todo ==> (k in sessions <==> now < old(sessions)[k].expiryTime)
        decreases |todo|
      {
        var k :| k in todo;
        todo := todo - {k};
        if now >= sessions[k].expiryTime { sessions := sessions - {k}; }
      }
    }

    method CleanExpired(now: int)
      requires Valid()
      modifies `sessions
      ensures Valid() && View() == Live(old(View()), now)
    {
      Sweep(now);
      Fewer(sessions.Keys, old(sessions).Keys);
    }

    method Insert(session: Session)
      requires Valid() && |sessions| < capacity && session.sessionId !in sessions
      modifies `sessions
      ensures Valid() && View() == old(View())[session.sessionId := session.Snapshot()]
    {
      ghost var before := View();
      var id := session.sessionId;
      sessions := sessions[id := session];
      OneMore(old(sessions), id, session);
      ghost var after := before[id := session.Snapshot()];
      assert View().Keys == sessions.Keys == after.Keys;
      assert forall k :: k in sessions ==> View()[k] == after[k];
    }

    method AdmitNew(session: Session, now: int) returns (ok: bool)
      requires Valid() && session.sessionId !in sessions
      modifies `sessions
      ensures Valid()
      ensures var room := Room(old(View()), capacity, now);
        Outcome(View(), Flag(ok)) ==
          if |room| >= capacity then Outcome(room, Flag(false))
          else Outcome(room[session.sessionId := session.Snapshot()], Flag(true))
    {
      hide Live;
      if |sessions| >= capacity { CleanExpired(now); }
      if |sessions| >= capacity { return false; }
      Insert(session);
      return true;
    }

    method Admit(session: Session, now: int) returns (ok: bool)
      requires Valid()
      modifies `sessions
      ensures Valid()
      ensures Outcome(View(), Flag(ok)) == DoAdmit(old(View()), capacity, session.sessionId, session.Snapshot(), now)
    {
      var id := session.sessionId;
      if id in sessions {
        if sessions[id] == session { return true; }
        if now < sessions[id].expiryTime { return false; }
      }
      hide Live, Room;
      Drop(id);
      ok := AdmitNew(session, now);
    }

    /** save: admission that throws instead of answering. */
    method Save(session: Session, now: int) returns (thrown: bool)
      requires Valid()
      modifies `sessions
      ensures Valid()
      ensures Outcome(View(), Flag(!thrown)) == DoAdmit(old(View()), capacity, session.sessionId, session.Snapshot(), now)
    {
      var ok := Admit(session, now);
      return !ok;
    }

    method Drop(id: string)
      requires Valid()
      modifies `sessions
      ensures Valid() && sessions == old(sessions) - {id} && View() == old(View()) - {id}
    {
      ghost var before := View();
      OneLess(sessions, id);
      sessions := sessions - {id};
      ghost var after := before - {id};
      OneLess(before, id);
      assert View().Keys == sessions.Keys == after.Keys;
      assert forall k :: k in sessions ==> View()[k] == after[k];
    }

    method Load(id: string, now: int) returns (found: Session?)
      requires Valid()
      modifies `sessions
      ensures Valid()
      ensures Outcome(View(), if found == null then NotFound else Found(found)) == DoLoad(old(View()), id, now, false)
    {
      if id !in sessions { return null; }
      var session := sessions[id];
      if now >= session.expiryTime {
        Drop(id);
        return null;
      }
      return session;
    }

    method LoadAndRefresh(id: string, now: int) returns (found: Session?)
      requires Valid()
      modifies `sessions, sessions.Values`expiryTime
      ensures Valid()
      ensures Outcome(View(), if found == null then NotFound else Found(found)) == DoLoad(old(View()), id, now, true)
    {
      if id !in sessions { return null; }
      var session := sessions[id];
      if now >= session.expiryTime {
        Drop(id);
        return null;
      }
      session.expiryTime := now + session.maxAge * SECOND;
      return session;
    }

    method UpdateExisting(session: Session, now: int) returns (ok: bool)
      requires Valid()
      modifies `sessions
      ensures Valid()
      ensures Outcome(View(), Flag(ok)) == DoUpdate(old(View()), session.sessionId, session, now)
    {
      var id := session.sessionId;
      if id !in sessions || sessions[id] != session { return false; }
      if now >= session.expiryTime {
        Drop(id);
        return false;
      }
      return true;
    }
  }

  lemma OneLess<V>(m: map<string, V>, id: string)
    ensures (m - {id}).Keys == m.Keys - {id} && |m - {id}| <= |m|
  {
    Fewer((m - {id}).Keys, m.Keys);
  }

  lemma OneMore<V>(m: map<string, V>, id: string, v: V)
    requires id !in m
    ensures m[id := v].Keys == m.Keys + {id} && |m[id := v]| == |m| + 1
  {
    assert m[id := v].Keys == m.Keys + {id} && |m[id := v]| == |m[id := v].Keys| && |m| == |m.Keys|;
  }
}
