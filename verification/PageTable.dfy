/** The growable table of pages, and how it goes with the list of regions. */
module PageTable {
  import opened Common
  import opened Regions

  const INITIAL_CAPACITY := 1024

  datatype Entry = Entry(global: nat, local: nat, owner: nat)

  function PageOf(a: nat): (p: nat)
    ensures p % PAGE_SIZE == 0 && p <= a < p + PAGE_SIZE
  {
    a - a % PAGE_SIZE
  }

  /** The first entry for a page, or the length of the table. */
  function ByPage(t: seq<Entry>, g: nat): (k: nat)
    ensures k <= |t| && (k < |t| ==> t[k].global == PageOf(g))
    ensures forall j :: 0 <= j < k ==> t[j].global != PageOf(g)
  {
    if t == [] then 0 else if t[0].global == PageOf(g) then 0 else 1 + ByPage(t[1..], g)
  }

  function ByLocalPage(t: seq<Entry>, l: nat): (k: nat)
    ensures k <= |t| && (k < |t| ==> t[k].local == PageOf(l))
    ensures forall j :: 0 <= j < k ==> t[j].local != PageOf(l)
  {
    if t == [] then 0 else if t[0].local == PageOf(l) then 0 else 1 + ByLocalPage(t[1..], l)
  }

  function PageAt(r: Region, i: nat): Entry {
    Entry(r.global + i * PAGE_SIZE, r.base + i * PAGE_SIZE, r.owner)
  }

  function PagesOf(r: Region): (p: seq<Entry>)
    ensures |p| == r.size / PAGE_SIZE
  {
    seq(r.size / PAGE_SIZE, i requires i >= 0 => PageAt(r, i))
  }

  class Table {
    var pages: array<Entry>
    var count: nat

    ghost predicate Valid()
      reads this
    {
      count <= pages.Length && pages.Length > 0
    }

    ghost function View(): seq<Entry>
      requires Valid()
      reads this, pages
    {
      pages[..count]
    }

    constructor ()
      ensures Valid() && View() == [] && fresh(pages) && pages.Length == 1024
    {
      pages := new Entry[INITIAL_CAPACITY](i => Entry(0, 0, 0));
      count := 0;
    }

    /** Twice the room, the same entries. */
    method Grow()
      requires Valid()
      modifies this
      ensures Valid() && View() == old(View()) && count == old(count)
      ensures fresh(pages) && pages.Length == 2 * old(pages.Length)
    {
      var bigger := new Entry[2 * pages.Length](i => Entry(0, 0, 0));
      for i := 0 to count
        modifies bigger
        invariant bigger[..i] == pages[..i]
      {
        bigger[i] := pages[i];
      }
      pages := bigger;
    }

    method Register(e: Entry)
      requires Valid()
      modifies this, pages
      ensures Valid() && View() == old(View()) + [e]
      ensures fresh(pages) || pages == old(pages)
    {
      if count >= pages.Length {
        Grow();
      }
      pages[count] := e;
      count := count + 1;
    }

    method Lookup(g: nat) returns (k: nat)
      requires Valid()
      ensures k == ByPage(View(), g)
    {
      k := 0;
      while k < count && pages[k].global != PageOf(g)
        invariant k <= count && forall j :: 0 <= j < k ==> pages[j].global != PageOf(g)
      {
        k := k + 1;
      }
      assert forall j :: 0 <= j < count ==> View()[j] == pages[j];
    }

    method LookupLocal(l: nat) returns (k: nat)
      requires Valid()
      ensures k == ByLocalPage(View(), l)
    {
      k := 0;
      while k < count && pages[k].local != PageOf(l)
        invariant k <= count && forall j :: 0 <= j < k ==> pages[j].local != PageOf(l)
      {
        k := k + 1;
      }
      assert forall j :: 0 <= j < count ==> View()[j] == pages[j];
    }
  }

  /** `dsm_region_create`: the region goes last in the list, its pages in the table. */
  method CreateRegion(list: RegionList, table: Table, size: nat, owner: nat, global: nat, mapped: Option<nat>)
    returns (region: Option<Region>)
    requires table.Valid()
    modifies list, table, table.pages
    ensures table.Valid() && region.Some? == mapped.Some?
    ensures mapped.None? ==> list.regions == old(list.regions) && table.View() == old(table.View())
    ensures mapped.Some? ==>
              && region.value == Region(mapped.value, AlignUp(size), owner, global)
              && list.regions == old(list.regions) + [region.value]
              && table.View() == old(table.View()) + PagesOf(region.value)
              && (mapped.value % PAGE_SIZE == 0 && global % PAGE_SIZE == 0 ==> Aligned(region.value))
              && (old(table.View()) == AllPages(old(list.regions)) ==> table.View() == AllPages(list.regions))
  {
    if mapped.None? {
      return None;
    }
    var r := Region(mapped.value, AlignUp(size), owner, global);
    list.Append(r);
    var n := r.size / PAGE_SIZE;
    ghost var before := table.View();
    for i := 0 to n
      invariant table.Valid() && table.View() == before + PagesOf(r)[..i]
      invariant fresh(table.pages) || table.pages == old(table.pages)
      invariant list.regions == old(list.regions) + [r]
    {
      table.Register(PageAt(r, i));
      assert PagesOf(r)[..i + 1] == PagesOf(r)[..i] + [PageAt(r, i)];
    }
    assert PagesOf(r)[..n] == PagesOf(r);
    assert list.regions[..|list.regions| - 1] == old(list.regions);
    region := Some(r);
  }

  // ---------------------------------------------------------------------
  // All pages of some regions
  // ---------------------------------------------------------------------

  function AllPages(rs: seq<Region>): seq<Entry> {
    if rs == [] then [] else AllPages(rs[..|rs| - 1]) + PagesOf(rs[|rs| - 1])
  }

  predicate Aligned(r: Region) {
    r.base % PAGE_SIZE == 0 && r.global % PAGE_SIZE == 0 && r.size % PAGE_SIZE == 0
  }

  /** Where the entries of region m begin. */
  function StartOf(rs: seq<Region>, m: nat): nat
    requires m <= |rs|
  {
    |AllPages(rs[..m])|
  }

  lemma {:induction false} StartsGrow(rs: seq<Region>, m: nat, k: nat)
    requires m < k <= |rs|
    ensures StartOf(rs, m) + rs[m].size / PAGE_SIZE <= StartOf(rs, k)
    decreases k
  {
    assert rs[..k][..k - 1] == rs[..k - 1];
    if m == k - 1 {
    } else {
      StartsGrow(rs, m, k - 1);
    }
  }

  /** Page q of region m has its entry at that place after the region's start. */
  lemma {:induction false} EntryOf(rs: seq<Region>, m: nat, q: nat)
    requires m < |rs| && q < rs[m].size / PAGE_SIZE
    ensures StartOf(rs, m) + q < |AllPages(rs)| && AllPages(rs)[StartOf(rs, m) + q] == PageAt(rs[m], q)
  {
    var n := |rs| - 1;
    if m == n {
      assert rs[..n] == rs[..m];
    } else {
      EntryOf(rs[..n], m, q);
      assert rs[..n][..m] == rs[..m];
    }
  }

  /** And every entry is of that form. */
  lemma {:induction false} RegionOf(rs: seq<Region>, i: nat) returns (m: nat, q: nat)
    requires i < |AllPages(rs)|
    ensures m < |rs| && q < rs[m].size / PAGE_SIZE && i == StartOf(rs, m) + q
    ensures AllPages(rs)[i] == PageAt(rs[m], q)
  {
    var n := |rs| - 1;
    if i < |AllPages(rs[..n])| {
      m, q := RegionOf(rs[..n], i);
      assert rs[..n][..m] == rs[..m];
    } else {
      m, q := n, i - |AllPages(rs[..n])|;
    }
  }

  lemma PageOfOffset(base: nat, offset: nat)
    requires base % PAGE_SIZE == 0
    ensures PageOf(base + offset) == base + (offset / PAGE_SIZE) * PAGE_SIZE
  {
  }

  /** A page of an aligned region: its entry has the addresses' pages on both sides. */
  lemma OwnPage(r: Region, offset: nat)
    requires Aligned(r) && offset < r.size
    ensures offset / PAGE_SIZE < r.size / PAGE_SIZE
    ensures var e := PageAt(r, offset / PAGE_SIZE);
            e.global == PageOf(r.global + offset) && e.local == PageOf(r.base + offset)
  {
    PageOfOffset(r.global, offset);
    PageOfOffset(r.base, offset);
  }

  /** An aligned region has all of a page or nothing of it. */
  lemma WholePages(r: Region, q: nat, a: nat)
    requires Aligned(r) && q < r.size / PAGE_SIZE
    ensures PageAt(r, q).local == PageOf(a) ==> HasLocal(r, a) && (a - r.base) / PAGE_SIZE == q
    ensures PageAt(r, q).global == PageOf(a) ==> HasGlobal(r, a) && (a - r.global) / PAGE_SIZE == q
  {
  }

  // ---------------------------------------------------------------------
  // Runs of creating and destroying regions
  // ---------------------------------------------------------------------

  /**
   * The region list and the page table.  `made` are all regions ever created,
   * in order, and `ids` the places in it of those in the list; both are for
   * the reader.
   */
  datatype State = State(list: seq<Region>, table: seq<Entry>, made: seq<Region>, ids: seq<nat>)

  /** Creating appends to both; destroying unlinks the region and leaves the table. */
  function Next(s: State, c: Change): State {
    match c
    case Map(r) =>
      if FreshFor(s.list, r) && Aligned(r)
      then State(s.list + [r], s.table + PagesOf(r), s.made + [r], s.ids + [|s.made|]) else s
    case Free(addr) =>
      var k := Picked(s.list, addr);
      if k < |s.list| && |s.ids| == |s.list|
      then Dropped(s, k) else s
  }

  function After(changes: seq<Change>): State {
    if changes == [] then State([], [], [], [])
    else Next(After(changes[..|changes| - 1]), changes[|changes| - 1])
  }

  predicate ApartFrom(r: Region, x: Region) {
    Apart(x.base, x.size, r.base, r.size) && Apart(x.global, x.size, r.global, r.size)
  }

  /** The list is some of the regions made; those made while one is listed are apart from it. */
  ghost predicate Inv(s: State) {
    && |s.ids| == |s.list| && s.table == AllPages(s.made) && Disjoint(s.list)
    && (forall r :: r in s.made ==> Aligned(r))
    && (forall x :: 0 <= x < |s.ids| ==> s.ids[x] < |s.made| && s.made[s.ids[x]] == s.list[x])
    && Distinct(s.ids)
    && LaterApart(s)
  }

  /** Regions made while one is listed are apart from it. */
  ghost predicate LaterApart(s: State)
    requires |s.ids| == |s.list|
  {
    forall x, m :: 0 <= x < |s.ids| && s.ids[x] < m < |s.made| ==> ApartFrom(s.made[m], s.list[x])
  }

  lemma MapApart(s: State, r: Region)
    requires |s.ids| == |s.list| && LaterApart(s) && FreshFor(s.list, r)
    requires forall x :: 0 <= x < |s.ids| ==> s.ids[x] < |s.made|
    ensures LaterApart(s.(list := s.list + [r], made := s.made + [r], ids := s.ids + [|s.made|]))
  {
    var list, made, ids := s.list + [r], s.made + [r], s.ids + [|s.made|];
    forall x, m | 0 <= x < |ids| && ids[x] < m < |made| ensures ApartFrom(made[m], list[x]) {
      assert x < |s.ids| && ids[x] == s.ids[x] && list[x] == s.list[x];
      if m < |s.made| {
        assert made[m] == s.made[m];
      } else {
        assert s.list[x] in s.list;
      }
    }
  }

  lemma MapListed(s: State, r: Region)
    requires |s.ids| == |s.list| && forall x :: 0 <= x < |s.ids| ==> s.ids[x] < |s.made| && s.made[s.ids[x]] == s.list[x]
    requires Distinct(s.ids)
    ensures var list, made, ids := s.list + [r], s.made + [r], s.ids + [|s.made|];
            Distinct(ids) && forall x :: 0 <= x < |ids| ==> ids[x] < |made| && made[ids[x]] == list[x]
  {
  }

  lemma MapInv(s: State, r: Region)
    requires Inv(s) && FreshFor(s.list, r) && Aligned(r)
    ensures Inv(Next(s, Map(r)))
  {
    var t := Next(s, Map(r));
    FreshDisjoint(s.list, r);
    MapApart(s, r);
    MapListed(s, r);
    assert t.made[..|s.made|] == s.made;
  }

  function Dropped(s: State, k: nat): State
    requires k < |s.list| == |s.ids|
  {
    s.(list := Without(s.list, k), ids := s.ids[..k] + s.ids[k + 1..])
  }

  lemma DroppedAt(s: State, k: nat, x: nat)
    requires k < |s.list| == |s.ids| && x < |s.ids| - 1
    ensures var t, y := Dropped(s, k), if x < k then x else x + 1;
            |t.ids| == |t.list| == |s.ids| - 1 && t.ids[x] == s.ids[y] && t.list[x] == s.list[y]
  {
    WithoutAt(s.list, k, x);
  }

  lemma DropApart(s: State, k: nat)
    requires k < |s.list| == |s.ids| && LaterApart(s)
    ensures LaterApart(Dropped(s, k))
  {
    var t := Dropped(s, k);
    forall x, m | 0 <= x < |t.ids| && t.ids[x] < m < |t.made| ensures ApartFrom(t.made[m], t.list[x]) {
      DroppedAt(s, k, x);
    }
  }

  lemma DropListed(s: State, k: nat)
    requires k < |s.list| == |s.ids| && Distinct(s.ids)
    requires forall x :: 0 <= x < |s.ids| ==> s.ids[x] < |s.made| && s.made[s.ids[x]] == s.list[x]
    ensures var t := Dropped(s, k);
            Distinct(t.ids) && forall x :: 0 <= x < |t.ids| ==> t.ids[x] < |t.made| && t.made[t.ids[x]] == t.list[x]
  {
    var t := Dropped(s, k);
    forall x | 0 <= x < |t.ids| ensures t.ids[x] < |t.made| && t.made[t.ids[x]] == t.list[x] {
      DroppedAt(s, k, x);
    }
  }

  lemma FreeInv(s: State, addr: nat)
    requires Inv(s) && Picked(s.list, addr) < |s.list|
    ensures Inv(Next(s, Free(addr))) && Next(s, Free(addr)).list == OnFree(s.list, addr)
  {
    var k := Picked(s.list, addr);
    WithoutDisjoint(s.list, k);
    DropApart(s, k);
    DropListed(s, k);
    assert Next(s, Free(addr)) == Dropped(s, k);
  }

  lemma {:induction false} RunInv(changes: seq<Change>)
    ensures Inv(After(changes))
  {
    if changes == [] {
    } else {
      var s := After(changes[..|changes| - 1]);
      RunInv(changes[..|changes| - 1]);
      match changes[|changes| - 1]
      case Map(r) => if FreshFor(s.list, r) && Aligned(r) { MapInv(s, r); }
      case Free(addr) => if Picked(s.list, addr) < |s.list| { FreeInv(s, addr); }
    }
  }

  /** Region m of those made has been destroyed. */
  predicate Destroyed(s: State, m: nat) {
    m < |s.made| && m !in s.ids
  }

  /** The place of the entry of the page at this offset of listed region x. */
  function OwnEntry(s: State, x: nat, offset: nat): nat
    requires x < |s.ids| && s.ids[x] <= |s.made|
  {
    StartOf(s.made, s.ids[x]) + offset / PAGE_SIZE
  }

  lemma NoOther(rs: seq<Region>, x: nat, offset: nat)
    requires Disjoint(rs) && x < |rs| && offset < rs[x].size
    ensures forall y :: 0 <= y < |rs| && y != x ==>
              !HasLocal(rs[y], rs[x].base + offset) && !HasGlobal(rs[y], rs[x].global + offset)
  {
  }

  /** A region made, other than x, that has one of x's addresses is an earlier one, destroyed since. */
  lemma OnlyEarlier(s: State, x: nat, m: nat, offset: nat)
    requires Inv(s) && x < |s.ids| && offset < s.list[x].size && m < |s.made| && m != s.ids[x]
    requires HasLocal(s.made[m], s.list[x].base + offset) || HasGlobal(s.made[m], s.list[x].global + offset)
    ensures m < s.ids[x] && Destroyed(s, m)
  {
    NoOther(s.list, x, offset);
    assert s.ids[x] < m ==> ApartFrom(s.made[m], s.list[x]);
  }

  lemma OwnEntryHit(s: State, x: nat, offset: nat)
    requires Inv(s) && x < |s.ids| && offset < s.list[x].size
    ensures var i, r := OwnEntry(s, x, offset), s.list[x];
            i < |s.table| && s.table[i] == Entry(PageOf(r.global + offset), PageOf(r.base + offset), r.owner)
  {
    assert s.made[s.ids[x]] in s.made;
    OwnPage(s.list[x], offset);
    EntryOf(s.made, s.ids[x], offset / PAGE_SIZE);
  }

  /** An entry before a page's own that has one of its addresses is left over from a destroyed region. */
  lemma LeftOver(s: State, x: nat, offset: nat, i: nat) returns (m: nat)
    requires Inv(s) && x < |s.ids| && offset < s.list[x].size && i < OwnEntry(s, x, offset) && i < |s.table|
    requires s.table[i].local == PageOf(s.list[x].base + offset) || s.table[i].global == PageOf(s.list[x].global + offset)
    ensures Destroyed(s, m)
    ensures s.table[i].local == PageOf(s.list[x].base + offset) ==> HasLocal(s.made[m], s.list[x].base + offset)
    ensures s.table[i].global == PageOf(s.list[x].global + offset) ==> HasGlobal(s.made[m], s.list[x].global + offset)
  {
    var q;
    m, q := RegionOf(s.made, i);
    assert s.made[m] in s.made;
    WholePages(s.made[m], q, s.list[x].base + offset);
    WholePages(s.made[m], q, s.list[x].global + offset);
    OnlyEarlier(s, x, m, offset);
  }

  /** The entry a destroyed region left for an address comes before a live one's. */
  lemma EarlierEntry(s: State, x: nat, offset: nat, m: nat, mine: nat) returns (i: nat)
    requires Inv(s) && x < |s.ids| && offset < s.list[x].size && m < s.ids[x] && mine < s.made[m].size
    ensures i < OwnEntry(s, x, offset) && i < |s.table|
    ensures s.table[i] == Entry(PageOf(s.made[m].global + mine), PageOf(s.made[m].base + mine), s.made[m].owner)
  {
    assert s.made[m] in s.made;
    OwnPage(s.made[m], mine);
    EntryOf(s.made, m, mine / PAGE_SIZE);
    StartsGrow(s.made, m, s.ids[x]);
    i := StartOf(s.made, m) + mine / PAGE_SIZE;
  }

  /** No region destroyed so far had the local address. */
  ghost predicate LocalUnused(s: State, l: nat) {
    forall m: nat :: Destroyed(s, m) ==> !HasLocal(s.made[m], l)
  }

  ghost predicate GlobalUnused(s: State, g: nat) {
    forall m: nat :: Destroyed(s, m) ==> !HasGlobal(s.made[m], g)
  }

  lemma LocalLookup(s: State, x: nat, offset: nat)
    requires Inv(s) && x < |s.ids| && offset < s.list[x].size
    ensures ByLocalPage(s.table, s.list[x].base + offset) == OwnEntry(s, x, offset)
            <==> LocalUnused(s, s.list[x].base + offset)
  {
    var l, own := s.list[x].base + offset, OwnEntry(s, x, offset);
    OwnEntryHit(s, x, offset);
    if ByLocalPage(s.table, l) != own {
      var m := LeftOver(s, x, offset, ByLocalPage(s.table, l));
    } else if !LocalUnused(s, l) {
      var m: nat :| Destroyed(s, m) && HasLocal(s.made[m], l);
      OnlyEarlier(s, x, m, offset);
      var i := EarlierEntry(s, x, offset, m, l - s.made[m].base);
    }
  }

  lemma GlobalLookup(s: State, x: nat, offset: nat)
    requires Inv(s) && x < |s.ids| && offset < s.list[x].size
    ensures ByPage(s.table, s.list[x].global + offset) == OwnEntry(s, x, offset)
            <==> GlobalUnused(s, s.list[x].global + offset)
  {
    var g, own := s.list[x].global + offset, OwnEntry(s, x, offset);
    OwnEntryHit(s, x, offset);
    if ByPage(s.table, g) != own {
      var m := LeftOver(s, x, offset, ByPage(s.table, g));
    } else if !GlobalUnused(s, g) {
      var m: nat :| Destroyed(s, m) && HasGlobal(s.made[m], g);
      OnlyEarlier(s, x, m, offset);
      var i := EarlierEntry(s, x, offset, m, g - s.made[m].global);
    }
  }

  /** Each lookup of the address at x's offset finds its own page's entry exactly
      if no region destroyed had that address. */
  ghost predicate FindsOwn(s: State, x: nat, offset: nat) {
    && x < |s.ids| && x < |s.list| && s.ids[x] < |s.made|
    && (ByLocalPage(s.table, s.list[x].base + offset) == OwnEntry(s, x, offset)
        <==> LocalUnused(s, s.list[x].base + offset))
    && (ByPage(s.table, s.list[x].global + offset) == OwnEntry(s, x, offset)
        <==> GlobalUnused(s, s.list[x].global + offset))
  }

  lemma FindsIn(s: State, x: nat, offset: nat)
    requires Inv(s) && x < |s.ids| && offset < s.list[x].size
    ensures FindsOwn(s, x, offset)
  {
    LocalLookup(s, x, offset);
    GlobalLookup(s, x, offset);
  }

  /**
   * After any run of creating and destroying regions, looking up a local
   * address of a live region, as on a fault, finds the entry of its own page
   * if and only if no region destroyed in the run had that local address; and
   * looking up its global address, as when the page is served, does if and
   * only if none had that global address.
   */
  lemma LookupsAfter(changes: seq<Change>, x: nat, offset: nat)
    requires x < |After(changes).list| && offset < After(changes).list[x].size
    ensures FindsOwn(After(changes), x, offset)
  {
    RunInv(changes);
    FindsIn(After(changes), x, offset);
  }

  /** Both lookups of the address at x's offset give the same entry, that of its page. */
  predicate FindsSame(s: State, x: nat, offset: nat) {
    && x < |s.list|
    && var g, l := s.list[x].global + offset, s.list[x].base + offset;
    && ByPage(s.table, g) == ByLocalPage(s.table, l) < |s.table|
    && s.table[ByPage(s.table, g)] == Entry(PageOf(g), PageOf(l), s.list[x].owner)
  }

  lemma SameIn(s: State, x: nat, offset: nat)
    requires Inv(s) && x < |s.ids| && offset < s.list[x].size && forall m: nat :: !Destroyed(s, m)
    ensures FindsSame(s, x, offset)
  {
    LocalLookup(s, x, offset);
    GlobalLookup(s, x, offset);
    OwnEntryHit(s, x, offset);
  }

  /** So while nothing has been destroyed the two lookups agree. */
  lemma LookupsAgree(changes: seq<Change>, x: nat, offset: nat)
    requires x < |After(changes).list| && offset < After(changes).list[x].size
    requires forall c :: c in changes ==> c.Map?
    ensures FindsSame(After(changes), x, offset)
  {
    RunInv(changes);
    NoneDestroyed(changes);
    SameIn(After(changes), x, offset);
  }

  lemma {:induction false} IdsInOrder(changes: seq<Change>)
    requires forall c :: c in changes ==> c.Map?
    ensures var s := After(changes); |s.ids| == |s.made| && forall m :: 0 <= m < |s.made| ==> s.ids[m] == m
  {
    if changes == [] {
    } else {
      var n := |changes| - 1;
      assert changes[n] in changes && forall c :: c in changes[..n] ==> c in changes;
      IdsInOrder(changes[..n]);
    }
  }

  lemma NoneDestroyed(changes: seq<Change>)
    requires forall c :: c in changes ==> c.Map?
    ensures forall m: nat :: !Destroyed(After(changes), m)
  {
    var s := After(changes);
    IdsInOrder(changes);
    forall m: nat ensures !Destroyed(s, m) {
      if m < |s.made| { assert s.ids[m] in s.ids; }
    }
  }

  // ---------------------------------------------------------------------
  // Stale hits are real
  // ---------------------------------------------------------------------

  /** Two regions of one page, the first destroyed before the second is created. */
  function Reuse(first: Region, second: Region): seq<Change> {
    [Map(first), Free(first.base), Map(second)]
  }

  lemma MapThenFree(first: Region)
    requires Aligned(first) && first.size == PAGE_SIZE && first.global > 0
    ensures After([Map(first), Free(first.base)]) == State([], PagesOf(first), [first], [])
  {
    var c := [Map(first), Free(first.base)];
    assert c[..1] == [Map(first)] && [Map(first)][..0] == [];
    assert After([Map(first)]) == Next(State([], [], [], []), Map(first)) == State([first], PagesOf(first), [first], [0]);
    OnlyLocal([first], 0, first.base);
    OnlyGlobal([first], 0, first.global);
    assert Without([first], 0) == [];
  }

  lemma ReuseState(first: Region, second: Region)
    requires Aligned(first) && Aligned(second) && first.size == second.size == PAGE_SIZE && first.global > 0
    ensures After(Reuse(first, second)) == State([second], PagesOf(first) + PagesOf(second), [first, second], [1])
  {
    MapThenFree(first);
    assert Reuse(first, second)[..2] == [Map(first), Free(first.base)];
  }

  lemma FirstEntry(first: Region, second: Region)
    requires first.size == second.size == PAGE_SIZE
    ensures var t := PagesOf(first) + PagesOf(second); |t| == 2 && t[0] == Entry(first.global, first.base, first.owner)
  {
    assert PagesOf(first)[0] == PageAt(first, 0);
  }

  /**
   * A page mapped where a destroyed one was: the fault path finds the old
   * entry, and would fetch the old global address.
   */
  lemma StaleLocalHit(base: nat, gone: nat, global: nat)
    requires base % PAGE_SIZE == 0 && gone % PAGE_SIZE == 0 && global % PAGE_SIZE == 0 && 0 < gone != global
    ensures var first, second := Region(base, PAGE_SIZE, MASTER_ID, gone), Region(base, PAGE_SIZE, MASTER_ID, global);
            var s := After(Reuse(first, second));
            s.list == [second] && ByLocalPage(s.table, base) < |s.table|
            && s.table[ByLocalPage(s.table, base)].global == gone && ByGlobal(s.list, gone) == |s.list|
  {
    var first, second := Region(base, PAGE_SIZE, MASTER_ID, gone), Region(base, PAGE_SIZE, MASTER_ID, global);
    ReuseState(first, second);
    FirstEntry(first, second);
    AlignedApart(gone, global);
  }

  lemma AlignedApart(a: nat, b: nat)
    requires a % PAGE_SIZE == 0 && b % PAGE_SIZE == 0 && a != b
    ensures Apart(a, PAGE_SIZE, b, PAGE_SIZE) && PageOf(a) == a && PageOf(b) == b
  {
  }

  /**
   * A page allocated again at the global address of a destroyed one: serving
   * it finds the old entry, whose local address is no longer mapped.
   */
  lemma StaleGlobalHit(global: nat, gone: nat, base: nat)
    requires base % PAGE_SIZE == 0 && gone % PAGE_SIZE == 0 && global % PAGE_SIZE == 0 && 0 < global && gone != base
    ensures var first, second := Region(gone, PAGE_SIZE, MASTER_ID, global), Region(base, PAGE_SIZE, MASTER_ID, global);
            var s := After(Reuse(first, second));
            s.list == [second] && ByPage(s.table, global) < |s.table|
            && s.table[ByPage(s.table, global)].local == gone && ByLocal(s.list, gone) == |s.list|
  {
    var first, second := Region(gone, PAGE_SIZE, MASTER_ID, global), Region(base, PAGE_SIZE, MASTER_ID, global);
    ReuseState(first, second);
    FirstEntry(first, second);
    AlignedApart(gone, base);
  }
}
