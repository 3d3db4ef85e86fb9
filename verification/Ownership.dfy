/** The master's ownership index: address ranges in hash chains, newest first. */
module Ownership {
  import opened Common

  const TABLE_SIZE := 4096

  datatype Range = Range(base: nat, size: nat, owner: nat)

  predicate Contains(r: Range, a: nat) {
    r.base <= a < r.base + r.size
  }

  function Hash(a: nat): (h: nat)
    ensures h < TABLE_SIZE
  {
    (a / PAGE_SIZE) % TABLE_SIZE
  }

  /** The first range of a chain that contains the address, or its length. */
  function First(chain: seq<Range>, a: nat): (k: nat)
    ensures k <= |chain| && (k < |chain| ==> Contains(chain[k], a))
    ensures forall j :: 0 <= j < k ==> !Contains(chain[j], a)
  {
    if chain == [] then 0 else if Contains(chain[0], a) then 0 else 1 + First(chain[1..], a)
  }

  /** Of all ranges, newest first, those whose start falls in bucket h. */
  function Bucket(all: seq<Range>, h: nat): seq<Range> {
    if all == [] then []
    else if Hash(all[0].base) == h then [all[0]] + Bucket(all[1..], h)
    else Bucket(all[1..], h)
  }

  /** The newest range that contains the address and starts in its bucket. */
  function Find(all: seq<Range>, a: nat): (k: nat)
    ensures k <= |all| && (k < |all| ==> Contains(all[k], a) && Hash(all[k].base) == Hash(a))
    ensures forall j :: 0 <= j < k ==> !(Contains(all[j], a) && Hash(all[j].base) == Hash(a))
  {
    if all == [] then 0
    else if Contains(all[0], a) && Hash(all[0].base) == Hash(a) then 0
    else 1 + Find(all[1..], a)
  }

  function OwnerAt(all: seq<Range>, k: nat): Option<nat> {
    if k < |all| then Some(all[k].owner) else None
  }

  lemma FirstCons(x: Range, rest: seq<Range>, a: nat)
    ensures First([x] + rest, a) == if Contains(x, a) then 0 else 1 + First(rest, a)
  {
    assert ([x] + rest)[1..] == rest;
  }

  /** Looking in one chain is looking in all ranges for those of that bucket. */
  lemma {:induction false} ChainFind(all: seq<Range>, a: nat)
    ensures var chain := Bucket(all, Hash(a));
            var k, f := First(chain, a), Find(all, a);
            (k < |chain| <==> f < |all|) && (k < |chain| ==> chain[k] == all[f])
  {
    if all == [] {
    } else {
      ChainFind(all[1..], a);
      if Hash(all[0].base) == Hash(a) {
        FirstCons(all[0], Bucket(all[1..], Hash(a)), a);
      }
    }
  }

  function Give(all: seq<Range>, f: nat, owner: nat): seq<Range>
    requires f < |all|
  {
    all[f := all[f].(owner := owner)]
  }

  /** The range given another owner is found as before. */
  lemma GiveFound(all: seq<Range>, a: nat, owner: nat)
    requires Find(all, a) < |all|
    ensures Find(Give(all, Find(all, a), owner), a) == Find(all, a)
  {
    var f := Find(all, a);
    var u := Give(all, f, owner);
    assert Contains(u[f], a) && Hash(u[f].base) == Hash(a);
    assert !(f < Find(u, a));
    assert !(Find(u, a) < f);
  }

  /** Giving a found range another owner changes its chain at one place. */
  lemma {:induction false} ChainUpdate(all: seq<Range>, a: nat, owner: nat)
    requires Find(all, a) < |all|
    ensures var chain := Bucket(all, Hash(a));
            First(chain, a) < |chain|
            && Bucket(Give(all, Find(all, a), owner), Hash(a)) == Give(chain, First(chain, a), owner)
  {
    ChainFind(all, a);
    var f, h := Find(all, a), Hash(a);
    var u, rest := Give(all, f, owner), Bucket(all[1..], h);
    if Hash(all[0].base) == h { FirstCons(all[0], rest, a); }
    if f == 0 {
      assert u[1..] == all[1..];
      assert Bucket(u, h) == [u[0]] + rest;
    } else {
      ChainUpdate(all[1..], a, owner);
      assert u[1..] == Give(all[1..], f - 1, owner);
    }
  }

  lemma {:induction false} OtherChains(all: seq<Range>, f: nat, owner: nat, h: nat)
    requires f < |all| && Hash(all[f].base) != h
    ensures Bucket(Give(all, f, owner), h) == Bucket(all, h)
  {
    var u := Give(all, f, owner);
    if f == 0 {
      assert u[1..] == all[1..];
    } else {
      OtherChains(all[1..], f - 1, owner, h);
      assert u[1..] == Give(all[1..], f - 1, owner);
    }
  }

  class OwnershipTable {
    const chains: array<seq<Range>>
    ghost var all: seq<Range>

    ghost predicate Valid()
      reads this, chains
    {
      chains.Length == TABLE_SIZE && forall h :: 0 <= h < TABLE_SIZE ==> chains[h] == Bucket(all, h)
    }

    constructor ()
      ensures Valid() && all == [] && fresh(chains)
    {
      chains := new seq<Range>[TABLE_SIZE](h => []);
      all := [];
    }

    /** All chains emptied in place. */
    method Reset()
      requires Valid()
      modifies this, chains
      ensures Valid() && all == []
    {
      for h := 0 to TABLE_SIZE
        modifies chains
        invariant chains.Length == TABLE_SIZE && forall k :: 0 <= k < h ==> chains[k] == []
      {
        chains[h] := [];
      }
      all := [];
    }

    method Register(base: nat, size: nat, owner: nat)
      requires Valid()
      modifies this, chains
      ensures Valid() && all == [Range(base, size, owner)] + old(all)
    {
      var entry := Range(base, size, owner);
      var hash := Hash(base);
      chains[hash] := [entry] + chains[hash];
      all := [entry] + all;
      assert all[1..] == old(all);
    }

    method Get(a: nat) returns (owner: Option<nat>)
      requires Valid()
      ensures owner == OwnerAt(all, Find(all, a))
    {
      var chain := chains[Hash(a)];
      ChainFind(all, a);
      var i := 0;
      while i < |chain|
        invariant i <= |chain| && forall j :: 0 <= j < i ==> !Contains(chain[j], a)
      {
        if Contains(chain[i], a) {
          return Some(chain[i].owner);
        }
        i := i + 1;
      }
      owner := None;
    }

    method SetOwner(a: nat, owner: nat) returns (status: int)
      requires Valid()
      modifies this, chains
      ensures Valid()
      ensures var f := Find(old(all), a);
              if f < |old(all)| then status == 0 && all == Give(old(all), f, owner)
              else status == -1 && all == old(all)
      ensures status == 0 ==> OwnerAt(all, Find(all, a)) == Some(owner)
      ensures status == -1 ==> OwnerAt(all, Find(all, a)) == None
      ensures |all| == |old(all)| && forall k :: 0 <= k < |all| ==>
                all[k].base == old(all[k].base) && all[k].size == old(all[k].size)
                && (k != Find(old(all), a) ==> all[k] == old(all[k]))
    {
      var hash := Hash(a);
      var chain := chains[hash];
      ChainFind(all, a);
      var i := 0;
      while i < |chain|
        invariant i <= |chain| && forall j :: 0 <= j < i ==> !Contains(chain[j], a)
      {
        if Contains(chain[i], a) {
          ghost var f := Find(all, a);
          GiveFound(all, a, owner);
          ChainUpdate(all, a, owner);
          forall h | 0 <= h < TABLE_SIZE && h != hash ensures Bucket(Give(all, f, owner), h) == chains[h] {
            OtherChains(all, f, owner, h);
          }
          chains[hash] := chain[i := chain[i].(owner := owner)];
          all := Give(all, f, owner);
          return 0;
        }
        i := i + 1;
      }
      status := -1;
    }
  }

  // ---------------------------------------------------------------------
  // Against a plain search of the intervals
  // ---------------------------------------------------------------------

  /**
   * The index answers as a newest-first search of all ranges would if and only
   * if that search finds nothing, or a range that starts in the address's own
   * bucket, or one whose owner also owns the newest range that does.
   */
  lemma AgreesWithSearch(all: seq<Range>, a: nat)
    ensures var first, found := First(all, a), Find(all, a);
            OwnerAt(all, found) == OwnerAt(all, first)
            <==> first == |all| || Hash(all[first].base) == Hash(a)
                 || (found < |all| && all[found].owner == all[first].owner)
  {
    SameRange(all, a);
  }

  /** The two find the same range exactly when the newest one is in the bucket. */
  lemma SameRange(all: seq<Range>, a: nat)
    ensures Find(all, a) == First(all, a)
            <==> First(all, a) == |all| || Hash(all[First(all, a)].base) == Hash(a)
  {
    var p := First(all, a);
    if p < |all| && Hash(all[p].base) == Hash(a) {
      assert !(p < Find(all, a)) && !(Find(all, a) < p);
    } else if p == |all| {
      assert !(Find(all, a) < p);
    }
  }

  /** Of ranges that do not overlap the second search can only find the same one. */
  lemma AgreesOnDisjoint(all: seq<Range>, a: nat)
    requires forall i, j :: 0 <= i < j < |all| ==> !(Contains(all[i], a) && Contains(all[j], a))
    ensures var first := First(all, a);
            OwnerAt(all, Find(all, a)) == OwnerAt(all, first)
            <==> first == |all| || Hash(all[first].base) == Hash(a)
  {
    AgreesWithSearch(all, a);
  }

  predicate SinglePage(r: Range) {
    r.base % PAGE_SIZE == 0 && r.size == PAGE_SIZE
  }

  /** A table of aligned single pages is searched exactly. */
  lemma SinglePagesExact(all: seq<Range>, a: nat)
    requires forall r :: r in all ==> SinglePage(r)
    ensures Find(all, a) == First(all, a)
  {
    SameRange(all, a);
    var p := First(all, a);
    if p < |all| {
      assert SinglePage(all[p]);
      SamePage(all[p].base, a);
    }
  }

  lemma SamePage(base: nat, a: nat)
    requires base % PAGE_SIZE == 0 && base <= a < base + PAGE_SIZE
    ensures a / PAGE_SIZE == base / PAGE_SIZE
  {
  }

  /** Inside an aligned range the pages in its bucket are every 4096th one. */
  lemma InOwnBucket(r: Range, a: nat)
    requires r.base % PAGE_SIZE == 0 && Contains(r, a)
    ensures Hash(r.base) == Hash(a) <==> ((a - r.base) / PAGE_SIZE) % TABLE_SIZE == 0
  {
    var p, d := r.base / PAGE_SIZE, (a - r.base) / PAGE_SIZE;
    assert a / PAGE_SIZE == p + d;
    ShiftedRemainder(p, d);
  }

  lemma ShiftedRemainder(p: nat, d: nat)
    ensures (p + d) % TABLE_SIZE == p % TABLE_SIZE <==> d % TABLE_SIZE == 0
  {
  }
}
