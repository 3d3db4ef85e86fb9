/**
 * One distributed lock as the master keeps it: the record, the two message
 * handlers that change it, and the order in which requests are served.
 */
module LockRecord {
  import opened Common

  /** What a lock record means: `queue` is waiters[0..waiter_count). */
  datatype Record = Record(locked: bool, holder: nat, queue: seq<nat>)

  /** A handler's effect: new record, return code, node to send a grant to. */
  datatype Reply = Reply(record: Record, status: int, grant: Option<nat>)

  const FREE := Record(false, 0, [])

  function OnRequest(r: Record, from: nat): Reply {
    if !r.locked then
      Reply(r.(locked := true, holder := from), 0, Some(from))
    else if |r.queue| < MAX_NODES then
      Reply(r.(queue := r.queue + [from]), 0, None)
    else
      Reply(r, 0, None)
  }

  function OnRelease(r: Record, from: nat): Reply {
    if !r.locked || r.holder != from then
      Reply(r, -1, None)
    else if |r.queue| > 0 then
      Reply(Record(true, r.queue[0], r.queue[1..]), 0, Some(r.queue[0]))
    else
      Reply(FREE, 0, None)
  }

  /** The master's own `dsm_lock` waits exactly while this holds. */
  predicate Blocked(r: Record, self: nat) {
    r.locked && r.holder != self
  }

  function Take(r: Record, self: nat): Record {
    r.(locked := true, holder := self)
  }

  /** A worker's `dsm_lock` waits exactly until this holds of its shadow. */
  predicate Granted(r: Record, self: nat) {
    r.locked && r.holder == self
  }

  function Cleared(r: Record): Record {
    r.(locked := false, holder := 0)
  }

  /** A release succeeds exactly if the sender holds the lock, and then goes to
      the first waiter if there is one. */
  lemma ReleaseMeans(r: Record, from: nat)
    ensures var reply := OnRelease(r, from);
            && reply.status == (if Granted(r, from) then 0 else -1)
            && (!Granted(r, from) ==> reply.record == r && reply.grant == None)
            && (Granted(r, from) && r.queue == [] ==> reply.record == Record(false, 0, []) && reply.grant == None)
            && (Granted(r, from) && r.queue != [] ==>
                  reply.record == Record(true, r.queue[0], r.queue[1..]) && reply.grant == Some(r.queue[0]))
  {
  }

  /** The record in memory: a fixed array of waiters and a count. */
  class DsmLock {
    var locked: bool
    var holder: nat
    const waiters: array<nat>
    var waiterCount: nat

    ghost predicate Valid()
      reads this
    {
      waiters.Length == MAX_NODES && waiterCount <= MAX_NODES
    }

    ghost function View(): Record
      requires Valid()
      reads this, waiters
    {
      Record(locked, holder, waiters[..waiterCount])
    }

    constructor ()
      ensures Valid() && View() == FREE && fresh(waiters)
    {
      locked, holder, waiterCount := false, 0, 0;
      waiters := new nat[MAX_NODES];
    }

    method HandleRequest(from: nat) returns (grant: Option<nat>)
      requires Valid()
      modifies this, waiters
      ensures Valid()
      ensures View() == OnRequest(old(View()), from).record
      ensures grant == OnRequest(old(View()), from).grant
      ensures !old(locked) ==> View() == Record(true, from, old(View()).queue) && grant == Some(from)
      ensures old(locked) && old(waiterCount) < 64 ==>
                View() == Record(true, old(holder), old(View()).queue + [from]) && grant == None
      ensures old(locked) && old(waiterCount) == 64 ==> View() == old(View()) && grant == None
    {
      grant := None;
      if !locked {
        locked, holder := true, from;
        grant := Some(from);
      } else if waiterCount < MAX_NODES {
        waiters[waiterCount] := from;
        waiterCount := waiterCount + 1;
      }
    }

    method HandleRelease(from: nat) returns (status: int, grant: Option<nat>)
      requires Valid()
      modifies this, waiters
      ensures Valid()
      ensures Reply(View(), status, grant) == OnRelease(old(View()), from)
      ensures !old(locked) || old(holder) != from ==> View() == old(View()) && status == -1 && grant == None
      ensures old(locked) && old(holder) == from && old(waiterCount) == 0 ==>
                View() == Record(false, 0, []) && status == 0 && grant == None
      ensures old(locked) && old(holder) == from && old(waiterCount) > 0 ==>
                && View() == Record(true, old(waiters[0]), old(waiters[1..waiterCount]))
                && status == 0 && grant == Some(old(waiters[0]))
    {
      if !locked || holder != from {
        return -1, None;
      }
      status, grant := 0, None;
      if waiterCount > 0 {
        var next := waiters[0];
        var i := 0;
        while i < waiterCount - 1
          modifies waiters
          invariant 0 <= i <= waiterCount - 1
          invariant forall k :: 0 <= k < i ==> waiters[k] == old(waiters[k + 1])
          invariant forall k :: i <= k < waiterCount ==> waiters[k] == old(waiters[k])
        {
          waiters[i] := waiters[i + 1];
          i := i + 1;
        }
        waiterCount := waiterCount - 1;
        holder := next;
        grant := Some(next);
      } else {
        locked, holder := false, 0;
      }
    }

    /** One pass of the master's own acquire: test the guard, take if allowed. */
    method TryTake(self: nat) returns (taken: bool)
      requires Valid()
      modifies this
      ensures Valid()
      ensures taken == !Blocked(old(View()), self)
      ensures View() == if taken then Take(old(View()), self) else old(View())
      ensures taken <==> !old(locked) || old(holder) == self
      ensures var reply := Handle(old(View()), MasterTake(self)); View() == reply.record && taken == (reply.status == 0)
      ensures View() == if taken then Record(true, self, old(View()).queue) else old(View())
    {
      taken := !(locked && holder != self);
      if taken {
        locked, holder := true, self;
      }
    }

    /** On a worker the record is a shadow: a grant sets it, unlocking clears it. */
    method SetGranted(self: nat)
      requires Valid()
      modifies this
      ensures Valid() && View() == Take(old(View()), self) && Granted(View(), self)
      ensures View() == Record(true, self, old(View()).queue)
    {
      locked, holder := true, self;
    }

    method ClearShadow()
      requires Valid()
      modifies this
      ensures Valid() && View() == Cleared(old(View())) && forall self :: !Granted(View(), self)
      ensures View() == Record(false, 0, old(View()).queue)
    {
      locked, holder := false, 0;
    }
  }

  /** All the locks; a message names its lock by index. */
  class LockTable {
    const locks: seq<DsmLock>

    ghost function Repr(): set<object>
      reads this
    {
      (set l: DsmLock | l in locks :: l as object) + (set l: DsmLock | l in locks :: l.waiters as object)
    }

    ghost predicate Valid()
      reads this, Repr()
    {
      && (forall l :: l in locks ==> l in Repr())
      && |locks| == MAX_LOCKS
      && (forall i :: 0 <= i < |locks| ==> locks[i].Valid())
      && (forall i, j :: 0 <= i < j < |locks| ==>
            locks[i] != locks[j] && locks[i].waiters != locks[j].waiters)
    }

    constructor ()
      ensures Valid() && fresh(Repr())
      ensures forall i :: 0 <= i < |locks| ==> locks[i].View() == FREE
    {
      var made: seq<DsmLock> := [];
      while |made| < MAX_LOCKS
        invariant |made| <= MAX_LOCKS
        invariant forall i :: 0 <= i < |made| ==> fresh(made[i]) && fresh(made[i].waiters)
        invariant forall i :: 0 <= i < |made| ==> made[i].Valid() && made[i].View() == FREE
        invariant forall i, j :: 0 <= i < j < |made| ==>
                    made[i] != made[j] && made[i].waiters != made[j].waiters
      {
        var l := new DsmLock();
        made := made + [l];
      }
      locks := made;
    }

    /** An out-of-range lock id is refused; otherwise only that lock changes. */
    method HandleLockRequest(from: nat, lockId: nat) returns (status: int, grant: Option<nat>)
      requires Valid()
      modifies if lockId < |locks| then {locks[lockId], locks[lockId].waiters} else {}
      ensures Valid()
      ensures lockId >= MAX_LOCKS ==> status == -1 && grant == None
      ensures lockId < MAX_LOCKS ==>
                Reply(locks[lockId].View(), status, grant) == OnRequest(old(locks[lockId].View()), from)
      ensures status == if lockId < 256 then 0 else -1
      ensures forall j :: 0 <= j < |locks| && j != lockId ==> locks[j].View() == old(locks[j].View())
    {
      if lockId >= MAX_LOCKS {
        return -1, None;
      }
      grant := locks[lockId].HandleRequest(from);
      status := 0;
    }

    method HandleLockRelease(from: nat, lockId: nat) returns (status: int, grant: Option<nat>)
      requires Valid()
      modifies if lockId < |locks| then {locks[lockId], locks[lockId].waiters} else {}
      ensures Valid()
      ensures lockId >= MAX_LOCKS ==> status == -1 && grant == None
      ensures lockId < MAX_LOCKS ==>
                Reply(locks[lockId].View(), status, grant) == OnRelease(old(locks[lockId].View()), from)
      ensures forall j :: 0 <= j < |locks| && j != lockId ==> locks[j].View() == old(locks[j].View())
    {
      if lockId >= MAX_LOCKS {
        return -1, None;
      }
      status, grant := locks[lockId].HandleRelease(from);
    }
  }

  // ---------------------------------------------------------------------
  // Any sequence of handler calls, by any callers, in any order
  // ---------------------------------------------------------------------

  datatype Call = Request(from: nat) | Release(from: nat) | MasterTake(self: nat)

  /** The record after some calls, with the order of acceptances and grants. */
  datatype Log = Log(record: Record, accepted: seq<nat>, granted: seq<nat>, releases: nat)

  function Handle(r: Record, c: Call): Reply {
    match c
    case Request(n) => OnRequest(r, n)
    case Release(n) => OnRelease(r, n)
    case MasterTake(n) => if Blocked(r, n) then Reply(r, -1, None) else Reply(Take(r, n), 0, None)
  }

  /** A request is accepted when it is granted or finds a free waiter slot. */
  function AcceptedBy(r: Record, c: Call): seq<nat> {
    if c.Request? && (!r.locked || |r.queue| < MAX_NODES) then [c.from] else []
  }

  function GrantedBy(r: Record, c: Call): seq<nat> {
    var grant := Handle(r, c).grant;
    if grant.Some? then [grant.value] else []
  }

  function Run(r: Record, calls: seq<Call>): Log {
    if calls == [] then Log(r, [], [], 0)
    else
      var n := |calls| - 1;
      var p, c := Run(r, calls[..n]), calls[n];
      var reply := Handle(p.record, c);
      Log(reply.record,
          p.accepted + AcceptedBy(p.record, c),
          p.granted + GrantedBy(p.record, c),
          p.releases + (if c.Release? && reply.status == 0 then 1 else 0))
  }

  /** A free lock has nobody queued. */
  predicate Settled(r: Record) {
    r.locked || r.queue == []
  }

  lemma FifoStep(r: Record, c: Call)
    requires Settled(r)
    ensures r.queue + AcceptedBy(r, c) == GrantedBy(r, c) + Handle(r, c).record.queue
    ensures Settled(Handle(r, c).record)
  {
  }

  /**
   * FIFO: whatever is called, the grants given out are the first of those
   * waiting or accepted, and the queue is the rest, in order.  A free record
   * keeps an empty queue, so the master's direct acquire overtakes nobody.
   */
  lemma {:induction false} Fifo(r: Record, calls: seq<Call>)
    requires Settled(r)
    ensures r.queue + Run(r, calls).accepted == Run(r, calls).granted + Run(r, calls).record.queue
    ensures Settled(Run(r, calls).record)
  {
    if calls == [] {
    } else {
      var n := |calls| - 1;
      var p, c := Run(r, calls[..n]), calls[n];
      Fifo(r, calls[..n]);
      FifoStep(p.record, c);
      var a, g, q := AcceptedBy(p.record, c), GrantedBy(p.record, c), Handle(p.record, c).record.queue;
      Regroup(r.queue, p.accepted, a);
      Regroup(p.granted, p.record.queue, a);
      Regroup(p.granted, g, q);
    }
  }

  /** From a held lock, one accepted release makes one grant while anyone waits. */
  lemma {:induction false} OneGrantPerRelease(r: Record, calls: seq<Call>)
    requires r.locked
    ensures Run(r, calls).releases <= |r.queue| ==>
              Run(r, calls).record.locked && |Run(r, calls).granted| == Run(r, calls).releases
    ensures Run(r, calls).releases >= |r.queue| ==> |Run(r, calls).granted| >= |r.queue|
  {
    if calls == [] {
    } else {
      var front := calls[..|calls| - 1];
      OneGrantPerRelease(r, front);
      Fifo(r, front);
    }
  }

  /**
   * A request at position k of the queue is served by exactly the (k+1)-th
   * further accepted release: until then it moves up one place per release,
   * from then on it is the (k+1)-th node granted.
   */
  lemma {:induction false} BoundedWaiting(r: Record, calls: seq<Call>, k: nat)
    requires r.locked && k < |r.queue|
    ensures var log := Run(r, calls);
            if log.releases <= k then
              |log.granted| == log.releases && k - log.releases < |log.record.queue|
              && log.record.queue[k - log.releases] == r.queue[k]
            else
              k < |log.granted| && log.granted[k] == r.queue[k]
  {
    var log := Run(r, calls);
    Fifo(r, calls);
    OneGrantPerRelease(r, calls);
    var all := r.queue + log.accepted;
    assert all[k] == r.queue[k];
    assert all == log.granted + log.record.queue;
  }
}
