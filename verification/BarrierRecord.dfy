/** The barrier as the master keeps it: the arrival list and the round number. */
module BarrierRecord {
  import opened Common

  /** The round number is a 32-bit counter. */
  const WRAP := 0x1_0000_0000

  /** `arrived` is arrived[0..arrived_count). */
  datatype Round = Round(id: nat, arrived: seq<nat>)

  datatype Entry = Entry(round: Round, released: seq<nat>)

  function Others(s: seq<nat>, self: nat): seq<nat> {
    if s == [] then []
    else Others(s[..|s| - 1], self) + (if s[|s| - 1] != self then [s[|s| - 1]] else [])
  }

  /** A node enters; the last of `total` to do so opens the barrier. */
  function OnEnter(r: Round, from: nat, total: nat, self: nat): Entry {
    var all := r.arrived + [from];
    if |all| >= total then Entry(Round((r.id + 1) % WRAP, []), Others(all, self))
    else Entry(r.(arrived := all), [])
  }

  /** What an entry does, be the list just long enough or longer: it opens the
      barrier and releases all that are listed, or it is listed. */
  lemma EnterMeans(r: Round, from: nat, total: nat, self: nat)
    ensures var e := OnEnter(r, from, total, self);
            && (|r.arrived| + 1 >= total ==>
                  && e.round == Round((r.id + 1) % WRAP, [])
                  && forall x :: x in e.released <==> x != self && (x == from || x in r.arrived))
            && (|r.arrived| + 1 < total ==> e.round == Round(r.id, r.arrived + [from]) && e.released == [])
  {
    forall x ensures x in Others(r.arrived + [from], self) <==> x != self && (x == from || x in r.arrived) {
      OthersMembers(r.arrived + [from], self, x);
    }
  }

  class Barrier {
    var barrierId: nat
    var arrivedCount: nat
    const arrived: array<nat>

    /** There is room for one more arrival whenever no handler is at work. */
    ghost predicate Valid()
      reads this
    {
      arrived.Length == MAX_NODES && arrivedCount < MAX_NODES && barrierId < WRAP
    }

    ghost function View(): Round
      requires Valid()
      reads this, arrived
    {
      Round(barrierId, arrived[..arrivedCount])
    }

    constructor ()
      ensures Valid() && View() == Round(0, []) && fresh(arrived)
    {
      barrierId, arrivedCount := 0, 0;
      arrived := new nat[MAX_NODES];
    }

    /** Every listed node but this one is sent a release, in the order of arrival. */
    method Releases(self: nat) returns (released: seq<nat>)
      requires arrivedCount <= arrived.Length
      ensures released == Others(arrived[..arrivedCount], self)
    {
      released := [];
      for i := 0 to arrivedCount
        invariant released == Others(arrived[..i], self)
      {
        var nodeId := arrived[i];
        assert arrived[..i + 1][..i] == arrived[..i];
        if nodeId != self {
          released := released + [nodeId];
        }
      }
    }

    /**
     * `total` is the node count read at this moment: it may have grown or
     * shrunk since the last entry, and `from` may have entered already.  The
     * append stays inside the array because no table holds more than 64 nodes.
     * An entry that makes the list at least `total` long, be it longer than
     * that, opens the barrier; any other is listed and releases nobody.
     */
    method HandleEnter(from: nat, total: nat, self: nat) returns (released: seq<nat>)
      requires Valid() && total <= MAX_NODES
      modifies this, arrived
      ensures Valid()
      ensures Entry(View(), released) == OnEnter(old(View()), from, total, self)
      ensures old(arrivedCount) + 1 >= total ==>
                && arrivedCount == 0 && barrierId == (if old(barrierId) == 0xFFFF_FFFF then 0 else old(barrierId) + 1)
                && forall x :: x in released <==> x != self && (x == from || x in old(View()).arrived)
      ensures old(arrivedCount) + 1 < total ==>
                View() == Round(old(barrierId), old(View()).arrived + [from]) && released == []
    {
      EnterMeans(View(), from, total, self);
      arrived[arrivedCount] := from;
      arrivedCount := arrivedCount + 1;
      released := [];
      assert arrived[..arrivedCount] == old(View()).arrived + [from];
      if arrivedCount >= total {
        released := Releases(self);
        arrivedCount := 0;
        barrierId := (barrierId + 1) % WRAP;
      }
    }
  }

  /** Membership may change freely between entries; entries may repeat a node. */
  datatype Change = Enter(from: nat) | Resize(total: nat)

  function Replay(r: Round, total: nat, changes: seq<Change>): (Round, nat) {
    if changes == [] then (r, total)
    else
      var n := |changes| - 1;
      var (q, t) := Replay(r, total, changes[..n]);
      match changes[n]
      case Enter(from) => (OnEnter(q, from, t, MASTER_ID).round, t)
      case Resize(t') => (q, if t' <= MAX_NODES then t' else t)
  }

  /** The arrival count is at most 63 whenever a handler starts. */
  lemma {:induction false} ArrivalsFit(r: Round, total: nat, changes: seq<Change>)
    requires |r.arrived| < MAX_NODES && total <= MAX_NODES
    ensures var (q, t) := Replay(r, total, changes); |q.arrived| < MAX_NODES && t <= MAX_NODES
  {
    if changes == [] {
    } else {
      ArrivalsFit(r, total, changes[..|changes| - 1]);
    }
  }

  lemma ReplayEnter(r: Round, total: nat, changes: seq<Change>, from: nat)
    ensures var q := Replay(r, total, changes);
            Replay(r, total, changes + [Enter(from)]) == (OnEnter(q.0, from, q.1, MASTER_ID).round, q.1)
  {
    var all := changes + [Enter(from)];
    assert all[..|all| - 1] == changes && all[|all| - 1] == Enter(from);
  }

  /** An entry leaves fewer nodes listed than the count it read, unless that was none. */
  predicate Short(before: Round, after: Round, from: nat, count: nat) {
    && (count > 0 ==> |after.arrived| < count)
    && (|before.arrived| + 1 >= count ==> after == Round((before.id + 1) % WRAP, []))
    && (|before.arrived| + 1 < count ==> after == Round(before.id, before.arrived + [from]))
  }

  /** So it is after any changes of membership and any entries. */
  lemma ListShort(r: Round, total: nat, changes: seq<Change>, from: nat)
    ensures var before, after := Replay(r, total, changes), Replay(r, total, changes + [Enter(from)]);
            after.1 == before.1 && Short(before.0, after.0, from, after.1)
  {
    ReplayEnter(r, total, changes, from);
    var before := Replay(r, total, changes);
    EnterMeans(before.0, from, before.1, MASTER_ID);
  }

  /** Releases keep the order of arrival, and each arrival is looked at by itself. */
  lemma {:induction false} OthersSplit(s: seq<nat>, t: seq<nat>, self: nat)
    ensures Others(s + t, self) == Others(s, self) + Others(t, self)
  {
    if t == [] {
      assert s + t == s;
    } else {
      var n := |t| - 1;
      assert (s + t)[..|s + t| - 1] == s + t[..n];
      OthersSplit(s, t[..n], self);
    }
  }

  /** Everybody but self, as often as it is listed. */
  lemma {:induction false} OthersCount(s: seq<nat>, self: nat)
    ensures multiset(Others(s, self)) == multiset(s)[self := 0]
  {
    if s == [] {
    } else {
      var n := |s| - 1;
      OthersCount(s[..n], self);
      assert s == s[..n] + [s[n]];
    }
  }

  lemma {:induction false} OthersMembers(s: seq<nat>, self: nat, x: nat)
    ensures x in Others(s, self) <==> x in s && x != self
  {
    if s == [] {
    } else {
      var n := |s| - 1;
      assert s == s[..n] + [s[n]];
      OthersMembers(s[..n], self, x);
    }
  }

  lemma {:induction false} OthersDistinct(s: seq<nat>, self: nat)
    requires Distinct(s)
    ensures Distinct(Others(s, self))
  {
    if s == [] {
    } else {
      var n := |s| - 1;
      OthersDistinct(s[..n], self);
      OthersMembers(s[..n], self, s[n]);
      assert s[n] !in s[..n];
    }
  }
}
