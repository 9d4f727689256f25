/** How long a session lasts, and who is let in, by the clock alone. */
module SessionLife {
  import opened Finite
  import opened SessionStore

  /** What a load answers right after a call. */
  function Asked<S(==)>(m: Store<S>, capacity: nat, op: Op<S>, now: int, id: string, later: int): Answer<S> {
    Perform(Perform(m, capacity, op, now).store, capacity, Op.Load(id), later).answer
  }

  /** A session of age `a` seconds that is refreshed at `now`, by a load or by its holder, is found at every
      time before `now` plus `a` thousand million ticks, and at none from then on. */
  lemma RefreshLasts<S>(m: Store<S>, capacity: nat, id: string, now: int, later: int)
    requires id in m
    ensures var e := m[id];
      && (now < e.expiry ==>
            Asked(m, capacity, Op.LoadAndRefresh(id), now, id, later) ==
              if later < now + e.age * 1_000_000_000 then Found(e.session) else NotFound)
      && Asked(m, capacity, Op.Refresh(id, e.session), now, id, later) ==
           if later < now + e.age * 1_000_000_000 then Found(e.session) else NotFound
  {
  }

  /** A load that does not refresh, and a refresh by the holder of another object, leave the time as it is. */
  lemma ExpiryStands<S>(m: Store<S>, capacity: nat, id: string, other: S, now: int, later: int)
    requires id in m && now < m[id].expiry && other != m[id].session
    ensures var e := m[id]; var answer := if later < e.expiry then Found(e.session) else NotFound;
      && Asked(m, capacity, Op.Load(id), now, id, later) == answer
      && Asked(m, capacity, Op.Refresh(id, other), now, id, later) == answer
      && Asked(m, capacity, Op.UpdateExisting(id, other), now, id, later) == answer
      && Asked(m, capacity, Op.UpdateExisting(id, e.session), now, id, later) == answer
      && Asked(m, capacity, Op.CleanExpired, now, id, later) == answer
  {
  }

  /** A session that is let in is found until its time. */
  lemma AdmittedLasts<S>(m: Store<S>, capacity: nat, id: string, e: Entry<S>, now: int, later: int)
    requires id !in m || m[id].session != e.session
    requires Perform(m, capacity, Op.Admit(id, e), now).answer == Flag(true)
    ensures Asked(m, capacity, Op.Admit(id, e), now, id, later) == if later < e.expiry then Found(e.session) else NotFound
  {
  }

  ghost function InUse<S>(m: Store<S>, now: int): set<string> { set k | k in m && now < m[k].expiry }

  /** A session is let in exactly if it is stored already, or its name is not in use and fewer names than
      the capacity are. */
  lemma AdmittedExactly<S>(m: Store<S>, capacity: nat, id: string, e: Entry<S>, now: int)
    requires |m| <= capacity
    ensures Perform(m, capacity, Op.Admit(id, e), now).answer ==
      Flag((id in m && m[id].session == e.session) || (id !in InUse(m, now) && |InUse(m, now)| < capacity))
  {
    assert InUse(m, now) == Live(m, now).Keys;
    assert |Live(m, now)| == |Live(m, now).Keys|;
    if !(id in m && m[id].session == e.session) && id !in InUse(m, now) {
      AdmitFresh(m, capacity, id, e, now);
      hide DoAdmit, Live;
    }
  }

  /** An update succeeds exactly for the stored object while it lives, and writes nothing. */
  lemma UpdatedExactly<S>(m: Store<S>, capacity: nat, id: string, s: S, now: int)
    ensures var o := Perform(m, capacity, Op.UpdateExisting(id, s), now);
      && o.answer == Flag(id in m && m[id].session == s && now < m[id].expiry)
      && (forall k :: k in o.store ==> k in m && o.store[k] == m[k])
      && (forall k :: k in m && (k != id || now < m[k].expiry) ==> k in o.store)
  {
  }

  /** A sweep and a removal take away exactly what they name. */
  lemma TakenAway<S>(m: Store<S>, capacity: nat, id: string, now: int, k: string)
    ensures k in Perform(m, capacity, Op.CleanExpired, now).store <==> k in InUse(m, now)
    ensures k in Perform(m, capacity, Op.Remove(id), now).store <==> k in m && k != id
  {
  }
}
