/** The pool's shared state as it is updated under its lock, and a borrower's checkout. */
module DbConnectionPool {
  import opened Optional
  import opened DbPool

  class ConnectionPool {
    var idle: seq<nat>
    var target: nat
    var slots: int
    var initialized: bool
    var stopping: bool
    /** The number the next connection made will have. */
    var created: nat

    function View(): State
      reads this
    {
      State(idle, target, slots, initialized, stopping)
    }

    constructor ()
      ensures View() == NEW_STATE && created == 0
    {
      idle, target, slots, initialized, stopping, created := [], 0, 0, false, false, 0;
    }

    /** `failAt` is the connection that cannot be made, if any; no partial pool is published. */
    method Initialize(size: nat, failAt: Option<nat>) returns (thrown: bool)
      modifies this
      ensures var s := Init(old(View()), size, old(created), failAt.None? || failAt.value >= size);
        thrown == s.None? && View() == (if s.None? then old(View()) else s.value)
      ensures created >= old(created)
    {
      if initialized { return false; }
      if stopping || size == 0 { return true; }
      var ready := [];
      var first := created;
      for i := 0 to size
        invariant ready == Numbers(first, i) && created == first + i
        invariant View() == old(View()) && (failAt.Some? ==> failAt.value >= i)
      {
        if failAt == Some(i) { return true; }
        ready := ready + [created];
        created := created + 1;
      }
      idle := ready;
      target, slots := size, size;
      initialized := true;
      return false;
    }

    /** Under the lock, once the wait is over. */
    method Take() returns (held: Option<nat>)
      requires CanReserve(View())
      modifies this
      ensures (View(), held) == Reserve(old(View())) && created == old(created)
    {
      if idle != [] {
        held := Some(idle[0]);
        idle := idle[1..];
      } else {
        held := None;
        slots := slots + 1;
      }
    }

    /** Outside the lock: makes, checks and if need be replaces the connection. */
    method Check(held: Option<nat>, probe: Probe) returns (conn: Option<nat>)
      modifies `created
      ensures (conn, created) == Prepare(held, old(created), probe)
    {
      conn := held;
      if conn.None? {
        if !probe.createOk { return None; }
        conn := Some(created);
        created := created + 1;
      }
      if !probe.pingOk {
        if !probe.reconnectOk {
          if !probe.replaceOk { return None; }
          conn := Some(created);
          created := created + 1;
          if !probe.replacementOk { return None; }
        }
      }
    }

    /** A whole checkout by one borrower; None is an exception. */
    method GetConnection(probe: Probe) returns (conn: Option<nat>)
      requires CanReserve(View())
      modifies this
      ensures var r := Reserve(old(View())); var p := Prepare(r.1, old(created), probe);
        conn == p.0 && created == p.1 && View() == (if p.0.None? then Fail(r.0) else r.0)
    {
      var held := Take();
      conn := Check(held, probe);
      if conn.None? { slots := slots - 1; }
    }

    /** The deleter of a lease. */
    method ReturnLease(c: nat)
      modifies this
      ensures View() == GiveBack(old(View()), c) && created == old(created)
    {
      if stopping {
        slots := slots - 1;
      } else {
        idle := idle + [c];
      }
    }

    /** The owner's destructor. */
    method Shutdown()
      modifies this
      ensures View() == Stop(old(View())) && created == old(created)
    {
      stopping := true;
      slots := slots - |idle|;
      idle := [];
    }
  }
}
