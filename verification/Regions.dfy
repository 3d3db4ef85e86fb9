/** The mapped regions of a node and the two address translations. */
module Regions {
  import opened Common

  /** `base` is the local address, `global` the shared one. */
  datatype Region = Region(base: nat, size: nat, owner: nat, global: nat)

  predicate HasGlobal(r: Region, g: nat) {
    r.global <= g < r.global + r.size
  }

  predicate HasLocal(r: Region, l: nat) {
    r.base <= l < r.base + r.size
  }

  /** The first region with the address, or the length of the list. */
  function ByGlobal(rs: seq<Region>, g: nat): (k: nat)
    ensures k <= |rs| && (k < |rs| ==> HasGlobal(rs[k], g))
    ensures forall j :: 0 <= j < k ==> !HasGlobal(rs[j], g)
  {
    if rs == [] then 0 else if HasGlobal(rs[0], g) then 0 else 1 + ByGlobal(rs[1..], g)
  }

  function ByLocal(rs: seq<Region>, l: nat): (k: nat)
    ensures k <= |rs| && (k < |rs| ==> HasLocal(rs[k], l))
    ensures forall j :: 0 <= j < k ==> !HasLocal(rs[j], l)
  {
    if rs == [] then 0 else if HasLocal(rs[0], l) then 0 else 1 + ByLocal(rs[1..], l)
  }

  /** `dsm_global_to_local`; none stands for NULL. */
  function ToLocal(rs: seq<Region>, g: nat): Option<nat> {
    var k := ByGlobal(rs, g);
    if k < |rs| then Some(rs[k].base + (g - rs[k].global)) else None
  }

  /** `dsm_local_to_global`; zero stands for "not here". */
  function ToGlobal(rs: seq<Region>, l: nat): nat {
    var k := ByLocal(rs, l);
    if k < |rs| then rs[k].global + (l - rs[k].base) else 0
  }

  function Without(rs: seq<Region>, k: nat): seq<Region>
    requires k < |rs|
  {
    rs[..k] + rs[k + 1..]
  }

  /** The region `dsm_mem_free` picks: translate, look up again; the length for none. */
  function Picked(rs: seq<Region>, addr: nat): (k: nat)
    ensures k <= |rs|
  {
    var g := ToGlobal(rs, addr);
    if g == 0 then |rs| else ByGlobal(rs, g)
  }

  function OnFree(rs: seq<Region>, addr: nat): seq<Region> {
    if Picked(rs, addr) < |rs| then Without(rs, Picked(rs, addr)) else rs
  }

  class RegionList {
    var regions: seq<Region>

    constructor ()
      ensures regions == []
    {
      regions := [];
    }

    method Append(r: Region)
      modifies this
      ensures regions == old(regions) + [r]
    {
      regions := regions + [r];
    }

    method FindGlobal(g: nat) returns (k: nat)
      ensures k == ByGlobal(regions, g)
    {
      k := 0;
      while k < |regions| && !HasGlobal(regions[k], g)
        invariant k <= |regions| && forall j :: 0 <= j < k ==> !HasGlobal(regions[j], g)
      {
        k := k + 1;
      }
    }

    method FindLocal(l: nat) returns (k: nat)
      ensures k == ByLocal(regions, l)
    {
      k := 0;
      while k < |regions| && !HasLocal(regions[k], l)
        invariant k <= |regions| && forall j :: 0 <= j < k ==> !HasLocal(regions[j], l)
      {
        k := k + 1;
      }
    }

    method Free(addr: nat)
      modifies this
      ensures regions == OnFree(old(regions), addr)
    {
      var k := FindLocal(addr);
      if k == |regions| {
        return;
      }
      var g := regions[k].global + (addr - regions[k].base);
      if g == 0 {
        return;
      }
      var i := FindGlobal(g);
      if i < |regions| {
        regions := regions[..i] + regions[i + 1..];
      }
    }
  }

  // ---------------------------------------------------------------------
  // Translation on disjoint regions
  // ---------------------------------------------------------------------

  predicate Apart(a: nat, n: nat, b: nat, m: nat) {
    a + n <= b || b + m <= a
  }

  ghost predicate Disjoint(rs: seq<Region>) {
    forall i, j :: 0 <= i < j < |rs| ==>
      Apart(rs[i].base, rs[i].size, rs[j].base, rs[j].size) && Apart(rs[i].global, rs[i].size, rs[j].global, rs[j].size)
  }

  /** The two translations undo each other on every live address. */
  lemma Bijection(rs: seq<Region>, k: nat, offset: nat)
    requires Disjoint(rs) && k < |rs| && offset < rs[k].size
    ensures ToLocal(rs, rs[k].global + offset) == Some(rs[k].base + offset)
    ensures ToGlobal(rs, rs[k].base + offset) == rs[k].global + offset
  {
    assert HasGlobal(rs[k], rs[k].global + offset) && HasLocal(rs[k], rs[k].base + offset);
    assert ByGlobal(rs, rs[k].global + offset) == k && ByLocal(rs, rs[k].base + offset) == k;
  }

  lemma WithoutDisjoint(rs: seq<Region>, k: nat)
    requires Disjoint(rs) && k < |rs|
    ensures Disjoint(Without(rs, k))
  {
  }

  lemma FreshDisjoint(rs: seq<Region>, r: Region)
    requires Disjoint(rs)
    requires forall x :: x in rs ==> Apart(x.base, x.size, r.base, r.size) && Apart(x.global, x.size, r.global, r.size)
    ensures Disjoint(rs + [r])
  {
  }

  lemma OnlyGlobal(rs: seq<Region>, k: nat, g: nat)
    requires Disjoint(rs) && k < |rs| && HasGlobal(rs[k], g)
    ensures ByGlobal(rs, g) == k
  {
  }

  lemma OnlyLocal(rs: seq<Region>, k: nat, l: nat)
    requires Disjoint(rs) && k < |rs| && HasLocal(rs[k], l)
    ensures ByLocal(rs, l) == k
  {
  }

  /** Where a region of the list stands once another is gone. */
  function Moved(i: nat, k: nat): nat
    requires i != k
  {
    if i < k then i else i - 1
  }

  lemma WithoutAt(rs: seq<Region>, k: nat, j: nat)
    requires k < |rs| && j < |rs| - 1
    ensures Without(rs, k)[j] == rs[if j < k then j else j + 1]
  {
  }

  lemma UnlinkGlobal(rs: seq<Region>, k: nat, a: nat)
    requires Disjoint(rs) && k < |rs|
    ensures ToLocal(Without(rs, k), a) == if HasGlobal(rs[k], a) then None else ToLocal(rs, a)
  {
    var w := Without(rs, k);
    var i, g := ByGlobal(rs, a), ByGlobal(w, a);
    if g < |w| {
      WithoutAt(rs, k, g);
      OnlyGlobal(rs, if g < k then g else g + 1, a);
    } else if i < |rs| && i != k {
      WithoutAt(rs, k, Moved(i, k));
      WithoutDisjoint(rs, k);
      OnlyGlobal(w, Moved(i, k), a);
    }
    if HasGlobal(rs[k], a) { OnlyGlobal(rs, k, a); }
  }

  lemma UnlinkLocal(rs: seq<Region>, k: nat, a: nat)
    requires Disjoint(rs) && k < |rs|
    ensures ToGlobal(Without(rs, k), a) == if HasLocal(rs[k], a) then 0 else ToGlobal(rs, a)
  {
    var w := Without(rs, k);
    var i, l := ByLocal(rs, a), ByLocal(w, a);
    if l < |w| {
      WithoutAt(rs, k, l);
      OnlyLocal(rs, if l < k then l else l + 1, a);
    } else if i < |rs| && i != k {
      WithoutAt(rs, k, Moved(i, k));
      WithoutDisjoint(rs, k);
      OnlyLocal(w, Moved(i, k), a);
    }
    if HasLocal(rs[k], a) { OnlyLocal(rs, k, a); }
  }

  /** Unlinking a region takes its own addresses away and no other translation. */
  lemma Unlink(rs: seq<Region>, k: nat, a: nat)
    requires Disjoint(rs) && k < |rs|
    ensures ToLocal(Without(rs, k), a) == if HasGlobal(rs[k], a) then None else ToLocal(rs, a)
    ensures ToGlobal(Without(rs, k), a) == if HasLocal(rs[k], a) then 0 else ToGlobal(rs, a)
  {
    UnlinkGlobal(rs, k, a);
    UnlinkLocal(rs, k, a);
  }

  lemma PickedIs(rs: seq<Region>, k: nat, addr: nat)
    requires Disjoint(rs) && k < |rs| && HasLocal(rs[k], addr)
    ensures Picked(rs, addr) == if rs[k].global + (addr - rs[k].base) == 0 then |rs| else k
  {
    OnlyLocal(rs, k, addr);
    OnlyGlobal(rs, k, rs[k].global + (addr - rs[k].base));
  }

  /**
   * Freeing an address unlinks the region it is in, and that one only, unless
   * its global address is zero, which is taken for "not here".
   */
  lemma FreeUnlinks(rs: seq<Region>, k: nat, addr: nat)
    requires Disjoint(rs) && k < |rs| && HasLocal(rs[k], addr)
    ensures OnFree(rs, addr) == Without(rs, k) <==> rs[k].global + (addr - rs[k].base) != 0
    ensures rs[k].global + (addr - rs[k].base) == 0 ==> OnFree(rs, addr) == rs
  {
    PickedIs(rs, k, addr);
    assert |Without(rs, k)| == |rs| - 1;
  }

  /** Addresses in no region translate to nothing, and freeing one unlinks nothing. */
  lemma NotHere(rs: seq<Region>, addr: nat)
    ensures (forall r :: r in rs ==> !HasLocal(r, addr)) ==> ToGlobal(rs, addr) == 0 && OnFree(rs, addr) == rs
    ensures (forall r :: r in rs ==> !HasGlobal(r, addr)) ==> ToLocal(rs, addr) == None
  {
    if ByLocal(rs, addr) < |rs| { assert HasLocal(rs[ByLocal(rs, addr)], addr); }
    if ByGlobal(rs, addr) < |rs| { assert HasGlobal(rs[ByGlobal(rs, addr)], addr); }
  }

  datatype Change = Map(r: Region) | Free(addr: nat)

  /** The system maps fresh local addresses; global ranges are not reused while live. */
  predicate FreshFor(rs: seq<Region>, r: Region) {
    forall x :: x in rs ==> Apart(x.base, x.size, r.base, r.size) && Apart(x.global, x.size, r.global, r.size)
  }

  function Live(changes: seq<Change>): seq<Region> {
    if changes == [] then []
    else
      var rs := Live(changes[..|changes| - 1]);
      match changes[|changes| - 1]
      case Map(r) => if FreshFor(rs, r) then rs + [r] else rs
      case Free(addr) => OnFree(rs, addr)
  }

  /** So the bijection holds throughout any run of mapping and freeing. */
  lemma {:induction false} LiveBijection(changes: seq<Change>, k: nat, offset: nat)
    requires k < |Live(changes)| && offset < Live(changes)[k].size
    ensures var rs := Live(changes);
            && ToLocal(rs, rs[k].global + offset) == Some(rs[k].base + offset)
            && ToGlobal(rs, rs[k].base + offset) == rs[k].global + offset
  {
    LiveDisjoint(changes);
    Bijection(Live(changes), k, offset);
  }

  lemma {:induction false} LiveDisjoint(changes: seq<Change>)
    ensures Disjoint(Live(changes))
  {
    if changes == [] {
    } else {
      var n := |changes| - 1;
      var rs := Live(changes[..n]);
      LiveDisjoint(changes[..n]);
      match changes[n]
      case Map(r) => if FreshFor(rs, r) { FreshDisjoint(rs, r); }
      case Free(addr) =>
        if Picked(rs, addr) < |rs| { WithoutDisjoint(rs, Picked(rs, addr)); }
    }
  }
}
