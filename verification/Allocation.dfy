/**
 * Global addresses on the master: a counter and the ownership index, used by
 * its application thread and its server thread at once.  Counting up and
 * registering are two critical sections, and the first use of the counter, at
 * initialization, is in none.
 */
module Allocation {
  import opened Common
  import opened Ownership

  const START := 0x100_0000
  const WORD := 0x1_0000_0000_0000_0000
  const WORD32 := 0x1_0000_0000

  /** Bytes donated for some chunks: whole pages, and all of them below 2^20 chunks only. */
  function Donated(chunks: uint32): (size: nat)
    ensures size % PAGE_SIZE == 0 && size < WORD32 && (size - chunks * PAGE_SIZE) % WORD32 == 0
    ensures size == chunks * PAGE_SIZE <==> chunks < WORD32 / PAGE_SIZE
  {
    (chunks * PAGE_SIZE) % WORD32
  }

  /**
   * The application thread: in `dsm_mem_init` before the index is emptied,
   * after that, with the base read, with the counter loaded to be increased;
   * then free to allocate, or with a range it has not registered yet.
   */
  datatype App = Starting | Cleared | BaseRead(base: nat) | Loaded(base: nat, seen: nat) | Running | Holding(range: Range)

  /**
   * The server thread with a request, under the allocation mutex: the base
   * read, then the counter loaded to be increased; then a range to register.
   */
  datatype Server =
    | Idle
    | Reading(from: nat, size: nat, base: nat)
    | Adding(from: nat, size: nat, base: nat, seen: nat)
    | Owing(range: Range)

  datatype State = State(next: nat, table: seq<Range>, app: App, server: Server, donated: nat)

  datatype Event =
    | InitReset
    | InitRead
    | InitLoad
    | InitStore
    | Alloc(size: nat)
    | AppRegister
    | RequestRead(from: nat, size: nat)
    | RequestLoad
    | RequestStore
    | ServerRegister

  /** A node that donates nothing has no memory to map, and its initialization fails. */
  predicate Init(s: State) {
    && s.next == START && s.table == [] && s.app == Starting && s.server == Idle
    && s.donated % PAGE_SIZE == 0 && s.donated > 0
  }

  /** The server is between reading the counter and having increased it. */
  predicate InSection(s: State) {
    s.server.Reading? || s.server.Adding?
  }

  /**
   * Addresses stay below 2^64; an allocation of zero bytes is refused.  An
   * allocation takes the mutex, the first use of the counter does not.
   */
  predicate Enabled(s: State, e: Event) {
    match e
    case InitReset => s.app.Starting?
    case InitRead => s.app.Cleared?
    case InitLoad => s.app.BaseRead?
    case InitStore => s.app.Loaded? && s.app.seen + s.donated < WORD
    case Alloc(size) => s.app.Running? && !InSection(s) && size > 0 && s.next + size + PAGE_SIZE < WORD
    case AppRegister => s.app.Holding?
    case RequestRead(_, _) => s.server.Idle?
    case RequestLoad => s.server.Reading?
    case RequestStore => s.server.Adding? && s.server.seen + s.server.size + PAGE_SIZE < WORD
    case ServerRegister => s.server.Owing?
  }

  /** The range a step gives out, if any. */
  function Given(s: State, e: Event): Option<Range>
    requires Enabled(s, e)
  {
    match e
    case InitStore => Some(Range(s.app.base, s.donated, MASTER_ID))
    case Alloc(size) => Some(Range(s.next, AlignUp(size), MASTER_ID))
    case RequestStore => Some(Range(s.server.base, AlignUp(s.server.size), s.server.from))
    case _ => None
  }

  function Apply(s: State, e: Event): State
    requires Enabled(s, e)
  {
    match e
    case InitReset => s.(table := [], app := Cleared)
    case InitRead => s.(app := BaseRead(s.next))
    case InitLoad => s.(app := Loaded(s.app.base, s.next))
    case InitStore => s.(next := s.app.seen + s.donated, app := Holding(Given(s, e).value))
    case Alloc(size) => s.(next := s.next + AlignUp(size), app := Holding(Given(s, e).value))
    case AppRegister => s.(table := [s.app.range] + s.table, app := Running)
    case RequestRead(from, size) => s.(server := Reading(from, size, s.next))
    case RequestLoad => s.(server := Adding(s.server.from, s.server.size, s.server.base, s.next))
    case RequestStore => s.(next := s.server.seen + AlignUp(s.server.size), server := Owing(Given(s, e).value))
    case ServerRegister => s.(table := [s.server.range] + s.table, server := Idle)
  }

  ghost predicate IsRun(states: seq<State>, events: seq<Event>) {
    && |states| == |events| + 1
    && (forall i {:trigger events[i]} :: 0 <= i < |events| ==>
          Enabled(states[i], events[i]) && states[i + 1] == Apply(states[i], events[i]))
  }

  // ---------------------------------------------------------------------
  // Every address in exactly one range
  // ---------------------------------------------------------------------

  /** How many of the ranges contain the address. */
  function Cover(rs: seq<Range>, a: nat): nat {
    if rs == [] then 0 else One(Contains(rs[0], a)) + Cover(rs[1..], a)
  }

  /** The same of all ranges given out, registered or not. */
  function Times(s: State, a: nat): nat {
    Cover(s.table, a) + One(s.app.Holding? && Contains(s.app.range, a)) + One(s.server.Owing? && Contains(s.server.range, a))
  }

  /** The ranges given out fill [START, next): no gap, no overlap, nothing beyond. */
  ghost predicate Exact(s: State) {
    forall a: nat :: Times(s, a) == One(START <= a < s.next)
  }

  /**
   * A step that makes a later one of another thread do harm: a nonempty range
   * registered before the index is emptied; something added to the counter by
   * one thread while the other is between reading it and adding to it.  Only a
   * request for nothing may have read its base before, if it has not loaded
   * the counter yet.
   */
  predicate Spoils(s: State, e: Event, later: Event) {
    match later
    case InitReset => e.ServerRegister? && s.app.Starting? && s.server.Owing? && s.server.range.size > 0
    case InitStore => e.RequestStore? && s.server.Adding? && s.server.size > 0 && (s.app.BaseRead? || s.app.Loaded?)
    case RequestStore => e.InitStore? && (s.server.Adding? || (s.server.Reading? && s.server.size > 0))
    case _ => false
  }

  /** Such a step has been taken. */
  ghost predicate Due(states: seq<State>, events: seq<Event>, i: nat, later: Event)
    requires IsRun(states, events) && i < |states|
  {
    exists j :: 0 <= j < i && Spoils(states[j], events[j], later)
  }

  /** And then the later one. */
  ghost predicate Spoiled(states: seq<State>, events: seq<Event>, i: nat)
    requires IsRun(states, events) && i < |states|
  {
    exists k :: 0 <= k < i && Due(states, events, k, events[k])
  }

  predicate AlignedRange(r: Range) {
    r.base % PAGE_SIZE == 0 && r.size % PAGE_SIZE == 0
  }

  ghost predicate Aligned(s: State) {
    && s.next % PAGE_SIZE == 0 && s.donated % PAGE_SIZE == 0
    && (forall r :: r in s.table ==> AlignedRange(r))
    && (s.app.Holding? ==> AlignedRange(s.app.range))
    && (s.server.Owing? ==> AlignedRange(s.server.range))
    && (s.app.BaseRead? || s.app.Loaded? ==> s.app.base % PAGE_SIZE == 0)
    && (s.app.Loaded? ==> s.app.seen % PAGE_SIZE == 0)
    && (InSection(s) ==> s.server.base % PAGE_SIZE == 0)
    && (s.server.Adding? ==> s.server.seen % PAGE_SIZE == 0)
  }

  /** Some address below the bound is lost. */
  ghost predicate Hole(s: State, bound: nat) {
    exists a: nat :: START <= a < bound && Times(s, a) == 0
  }

  /** Some address is in two ranges. */
  ghost predicate Twice(s: State) {
    exists a: nat :: Times(s, a) > 1
  }

  /** From `base` on nothing is amiss. */
  ghost predicate ExactFrom(s: State, base: nat) {
    && START <= base <= s.next
    && forall a: nat :: base <= a ==> Times(s, a) == One(a < s.next)
  }

  /** The counter is what the server has read, if it is in its section. */
  predicate Current(s: State) {
    && (InSection(s) ==> s.server.base == s.next)
    && (s.server.Adding? ==> s.server.seen == s.next)
  }

  /** What has come: steps after which resetting, the master's or the server's adding do harm; and the harm. */
  datatype Past = Past(lost: bool, app: bool, server: bool, spoiled: bool)

  /** Where things stand before the master has added its chunks. */
  ghost predicate Before(s: State, h: Past) {
    && Current(s) && !h.server && s.donated > 0
    && match s.app
       case Starting =>
         Exact(s) && !h.app && !h.spoiled && (h.lost <==> exists r :: r in s.table && r.size > 0)
       case Cleared => ExactFrom(s, s.next) && !h.app && if h.spoiled then Hole(s, s.next) else Exact(s)
       case BaseRead(b) => ExactFrom(s, b) && (h.app <==> b < s.next) && if h.spoiled then Hole(s, b) else Exact(s)
       case Loaded(b, seen) =>
         && b <= seen <= s.next
         && ExactFrom(s, b) && (h.app <==> b < s.next) && if h.spoiled then Hole(s, b) else Exact(s)
       case _ => false
  }

  /** And after: what the server has read may be out of date. */
  ghost predicate After(s: State, h: Past) {
    && (s.app.Running? || s.app.Holding?)
    && (Exact(s) <==> !h.spoiled)
    && (Current(s) && h.server ==> h.spoiled)
    && (!Current(s) ==> if h.spoiled then Twice(s) || (Hole(s, s.server.base) && Behind(s))
                        else Behind(s) && s.server.base < s.next
                             && (h.server <==> s.server.size > 0 || (s.server.Adding? && s.server.seen != s.next)))
  }

  predicate Behind(s: State) {
    InSection(s) && s.server.base <= s.next && (s.server.Adding? ==> s.server.base <= s.server.seen <= s.next)
  }

  ghost predicate Standing(s: State, h: Past) {
    && START <= s.next && (InSection(s) ==> START <= s.server.base) && (s.server.Adding? ==> START <= s.server.seen)
    && (Before(s, h) || After(s, h))
  }

  function Onward(h: Past, s: State, e: Event): Past {
    Past(h.lost || Spoils(s, e, InitReset), h.app || Spoils(s, e, InitStore), h.server || Spoils(s, e, RequestStore),
         h.spoiled || (e.InitReset? && h.lost) || (e.InitStore? && h.app) || (e.RequestStore? && h.server))
  }

  lemma {:induction false} CoverIn(rs: seq<Range>, r: Range, a: nat)
    requires r in rs && Contains(r, a)
    ensures Cover(rs, a) > 0
  {
    if r == rs[0] {
    } else {
      CoverIn(rs[1..], r, a);
    }
  }

  lemma {:induction false} CoverEmpty(rs: seq<Range>, a: nat)
    requires forall r :: r in rs ==> r.size == 0
    ensures Cover(rs, a) == 0
  {
    if rs == [] {
    } else {
      assert rs[0] in rs;
      CoverEmpty(rs[1..], a);
    }
  }

  lemma CoverCons(r: Range, rs: seq<Range>, a: nat)
    ensures Cover([r] + rs, a) == One(Contains(r, a)) + Cover(rs, a)
  {
    assert ([r] + rs)[1..] == rs;
  }

  /** Registering moves a range and counts nothing twice. */
  lemma TimesStep(s: State, e: Event, a: nat)
    requires Enabled(s, e) && e != InitReset
    ensures Times(Apply(s, e), a) == Times(s, a) + One(Given(s, e).Some? && Contains(Given(s, e).value, a))
  {
    match e
    case AppRegister => CoverCons(s.app.range, s.table, a);
    case ServerRegister => CoverCons(s.server.range, s.table, a);
    case _ =>
  }

  lemma ResetStanding(s: State, h: Past)
    requires Standing(s, h) && Enabled(s, InitReset)
    ensures Standing(Apply(s, InitReset), Onward(h, s, InitReset))
  {
    var t := Apply(s, InitReset);
    if h.lost {
      var r :| r in s.table && r.size > 0;
      CoverIn(s.table, r, r.base);
      assert Times(s, r.base) == One(START <= r.base < s.next);
      assert Times(t, r.base) == 0;
      assert forall a: nat :: Times(t, a) <= Times(s, a);
    } else {
      forall a: nat ensures Times(t, a) == One(START <= a < t.next) {
        CoverEmpty(s.table, a);
        assert Times(s, a) == One(START <= a < s.next);
      }
    }
  }

  /** A step that gives out nothing and leaves the counter changes no count. */
  lemma SameTimes(s: State, t: State)
    requires s.next == t.next && forall a: nat :: Times(t, a) == Times(s, a)
    ensures Exact(s) <==> Exact(t)
    ensures Twice(s) ==> Twice(t)
    ensures forall b: nat :: ExactFrom(s, b) ==> ExactFrom(t, b)
    ensures forall bound: nat :: Hole(s, bound) ==> Hole(t, bound)
  {
    if !Exact(s) {
      var a: nat :| Times(s, a) != One(START <= a < s.next);
      assert Times(t, a) == Times(s, a);
    }
    if Twice(s) {
      var a: nat :| Times(s, a) > 1;
      assert Times(t, a) > 1;
    }
    forall bound: nat | Hole(s, bound) ensures Hole(t, bound) {
      var a: nat :| START <= a < bound && Times(s, a) == 0;
      assert Times(t, a) == 0;
    }
  }

  lemma QuietTimes(s: State, e: Event)
    requires Enabled(s, e) && Given(s, e) == None && e != InitReset
    ensures forall a: nat :: Times(Apply(s, e), a) == Times(s, a)
    ensures Apply(s, e).next == s.next
  {
    forall a: nat ensures Times(Apply(s, e), a) == Times(s, a) {
      TimesStep(s, e, a);
    }
  }

  lemma QuietStanding(s: State, e: Event, h: Past)
    requires Standing(s, h) && Enabled(s, e)
    requires e.InitRead? || e.InitLoad? || e.RequestRead? || e.RequestLoad?
    ensures Standing(Apply(s, e), Onward(h, s, e))
  {
    QuietTimes(s, e);
    SameTimes(s, Apply(s, e));
  }

  lemma RegisterStanding(s: State, e: Event, h: Past)
    requires Standing(s, h) && Enabled(s, e) && (e.AppRegister? || e.ServerRegister?)
    ensures Standing(Apply(s, e), Onward(h, s, e))
  {
    var t := Apply(s, e);
    QuietTimes(s, e);
    SameTimes(s, t);
    if s.app.Starting? {
      assert s.server.range in t.table;
      assert forall r :: r in t.table <==> r == s.server.range || r in s.table;
    }
  }

  lemma InitStoreStanding(s: State, h: Past)
    requires Standing(s, h) && Enabled(s, InitStore)
    ensures Standing(Apply(s, InitStore), Onward(h, s, InitStore))
  {
    var t := Apply(s, InitStore);
    var own := t.app.range;
    forall a: nat ensures Times(t, a) == Times(s, a) + One(Contains(own, a)) {
      TimesStep(s, InitStore, a);
    }
    if h.app {
      assert Times(s, own.base) == 1;
      assert Times(t, own.base) == 2;
    } else if h.spoiled {
      var a: nat :| START <= a < own.base && Times(s, a) == 0;
      assert Times(t, a) == 0 != One(START <= a < t.next);
      assert Hole(t, own.base);
    }
  }

  /** Taking a range from the counter as it is. */
  lemma BumpExact(s: State, t: State, r: Range)
    requires START <= s.next == r.base && t.next == s.next + r.size
    requires forall a: nat :: Times(t, a) == Times(s, a) + One(Contains(r, a))
    ensures Exact(s) <==> Exact(t)
    ensures forall b: nat :: ExactFrom(s, b) ==> ExactFrom(t, b)
    ensures forall bound: nat :: bound <= s.next && Hole(s, bound) ==> Hole(t, bound)
    ensures ExactFrom(s, s.next) ==> ExactFrom(t, t.next)
  {
    if !Exact(s) {
      var a: nat :| Times(s, a) != One(START <= a < s.next);
      assert Times(t, a) != One(START <= a < t.next);
    }
    forall bound: nat | bound <= s.next && Hole(s, bound) ensures Hole(t, bound) {
      var a: nat :| START <= a < bound && Times(s, a) == 0;
      assert Times(t, a) == 0;
    }
  }

  lemma AllocStanding(s: State, e: Event, h: Past)
    requires Standing(s, h) && Enabled(s, e) && e.Alloc?
    ensures Standing(Apply(s, e), Onward(h, s, e))
  {
    var t, r := Apply(s, e), Given(s, e).value;
    forall a: nat ensures Times(t, a) == Times(s, a) + One(Contains(r, a)) {
      TimesStep(s, e, a);
    }
    BumpExact(s, t, r);
  }

  /** The server adds to the counter it has read. */
  lemma CurrentStanding(s: State, h: Past)
    requires Standing(s, h) && Enabled(s, RequestStore) && Current(s)
    ensures Standing(Apply(s, RequestStore), Onward(h, s, RequestStore))
  {
    var t, r := Apply(s, RequestStore), Given(s, RequestStore).value;
    forall a: nat ensures Times(t, a) == Times(s, a) + One(Contains(r, a)) {
      TimesStep(s, RequestStore, a);
    }
    BumpExact(s, t, r);
    if s.app.Cleared? && h.spoiled { assert Hole(t, s.next); }
  }

  /** The server adds to a counter the master has changed meanwhile. */
  lemma BehindStanding(s: State, h: Past)
    requires Standing(s, h) && Enabled(s, RequestStore) && !Current(s)
    ensures Standing(Apply(s, RequestStore), Onward(h, s, RequestStore))
  {
    var t, r := Apply(s, RequestStore), Given(s, RequestStore).value;
    forall a: nat ensures Times(t, a) == Times(s, a) + One(Contains(r, a)) {
      TimesStep(s, RequestStore, a);
    }
    if Twice(s) {
      var a: nat :| Times(s, a) > 1;
      assert Times(s, a) != One(START <= a < s.next) && Times(t, a) != One(START <= a < t.next);
    } else if h.spoiled {
      var a: nat :| START <= a < s.server.base && Times(s, a) == 0;
      assert Times(t, a) != One(START <= a < t.next);
    } else if s.server.size > 0 {
      assert Times(s, r.base) == 1;
      assert Times(t, r.base) != One(START <= r.base < t.next);
    } else if s.server.seen < s.next {
      assert Times(s, s.server.seen) == 1;
      assert Times(t, s.server.seen) != One(START <= s.server.seen < t.next);
    }
  }

  lemma StandingStep(s: State, e: Event, h: Past)
    requires Standing(s, h) && Enabled(s, e)
    ensures Standing(Apply(s, e), Onward(h, s, e))
  {
    match e
    case InitReset => ResetStanding(s, h);
    case InitStore => InitStoreStanding(s, h);
    case Alloc(_) => AllocStanding(s, e, h);
    case AppRegister => RegisterStanding(s, e, h);
    case ServerRegister => RegisterStanding(s, e, h);
    case RequestStore => if Current(s) { CurrentStanding(s, h); } else { BehindStanding(s, h); }
    case _ => QuietStanding(s, e, h);
  }

  ghost function PastAt(states: seq<State>, events: seq<Event>, i: nat): Past
    requires IsRun(states, events) && i < |states|
  {
    Past(Due(states, events, i, InitReset), Due(states, events, i, InitStore), Due(states, events, i, RequestStore),
         Spoiled(states, events, i))
  }

  lemma DueNext(states: seq<State>, events: seq<Event>, i: nat, later: Event)
    requires IsRun(states, events) && i < |events|
    ensures Due(states, events, i + 1, later) <==> Due(states, events, i, later) || Spoils(states[i], events[i], later)
  {
  }

  lemma SpoiledNext(states: seq<State>, events: seq<Event>, i: nat)
    requires IsRun(states, events) && i < |events|
    ensures Spoiled(states, events, i + 1) <==> Spoiled(states, events, i) || Due(states, events, i, events[i])
  {
  }

  lemma DueOnly(states: seq<State>, events: seq<Event>, i: nat, later: Event)
    requires IsRun(states, events) && i < |states| && Due(states, events, i, later)
    ensures later == InitReset || later == InitStore || later == RequestStore
  {
  }

  lemma PastNext(states: seq<State>, events: seq<Event>, i: nat)
    requires IsRun(states, events) && i < |events|
    ensures PastAt(states, events, i + 1) == Onward(PastAt(states, events, i), states[i], events[i])
  {
    DueNext(states, events, i, InitReset);
    DueNext(states, events, i, InitStore);
    DueNext(states, events, i, RequestStore);
    SpoiledNext(states, events, i);
    if Due(states, events, i, events[i]) { DueOnly(states, events, i, events[i]); }
  }

  lemma InitStanding(s: State)
    requires Init(s)
    ensures Standing(s, Past(false, false, false, false))
  {
  }

  lemma PastFirst(states: seq<State>, events: seq<Event>)
    requires IsRun(states, events)
    ensures PastAt(states, events, 0) == Past(false, false, false, false)
  {
  }

  lemma NextStanding(states: seq<State>, events: seq<Event>, i: nat)
    requires IsRun(states, events) && i < |events| && Standing(states[i], PastAt(states, events, i))
    ensures Standing(states[i + 1], PastAt(states, events, i + 1))
  {
    StandingStep(states[i], events[i], PastAt(states, events, i));
    PastNext(states, events, i);
  }

  lemma {:induction false} RunStanding(states: seq<State>, events: seq<Event>, i: nat)
    requires IsRun(states, events) && Init(states[0]) && i < |states|
    ensures Standing(states[i], PastAt(states, events, i))
  {
    if i == 0 {
      InitStanding(states[0]);
      PastFirst(states, events);
    } else {
      RunStanding(states, events, i - 1);
      NextStanding(states, events, i - 1);
    }
  }

  lemma {:induction false} RunAligned(states: seq<State>, events: seq<Event>, i: nat)
    requires IsRun(states, events) && Init(states[0]) && i < |states|
    ensures Aligned(states[i])
  {
    if i == 0 {
    } else {
      RunAligned(states, events, i - 1);
      AlignedStep(states[i - 1], events[i - 1]);
    }
  }

  lemma AlignedStep(s: State, e: Event)
    requires Aligned(s) && Enabled(s, e)
    ensures Aligned(Apply(s, e))
  {
  }

  lemma StandingExact(s: State, h: Past)
    requires Standing(s, h)
    ensures Exact(s) <==> !h.spoiled
  {
    if Before(s, h) && h.spoiled {
      var a: nat :| START <= a < s.next && Times(s, a) == 0;
      assert Times(s, a) != One(START <= a < s.next);
    }
  }

  /**
   * In every state of every run, and in whatever order they are registered,
   * the ranges given out fill [START, next) exactly, if and only if no range
   * of any size was registered before the index was emptied, and neither
   * thread has added to the counter what it had read before the other, without
   * the mutex on one side, added something to it.
   */
  lemma RangesExact(states: seq<State>, events: seq<Event>, i: nat)
    requires IsRun(states, events) && Init(states[0]) && i < |states|
    ensures Exact(states[i]) <==> !Spoiled(states, events, i)
  {
    RunStanding(states, events, i);
    StandingExact(states[i], PastAt(states, events, i));
  }

  // ---------------------------------------------------------------------
  // What the index then answers
  // ---------------------------------------------------------------------

  lemma {:induction false} CoverTwo(rs: seq<Range>, i: nat, j: nat, a: nat)
    requires i < j < |rs| && Contains(rs[i], a) && Contains(rs[j], a)
    ensures Cover(rs, a) >= 2
  {
    if i == 0 {
      CoverIn(rs[1..], rs[j], a);
    } else {
      CoverTwo(rs[1..], i - 1, j - 1, a);
    }
  }

  /** No address is in two of the registered ranges, nor in one that is still to be. */
  lemma RangesDisjoint(s: State, i: nat, a: nat)
    requires Exact(s) && i < |s.table| && Contains(s.table[i], a)
    ensures START <= a < s.next
    ensures forall j :: 0 <= j < |s.table| && Contains(s.table[j], a) ==> j == i
    ensures s.app.Holding? ==> !Contains(s.app.range, a)
    ensures s.server.Owing? ==> !Contains(s.server.range, a)
  {
    assert Times(s, a) == One(START <= a < s.next);
    CoverIn(s.table, s.table[i], a);
    forall j | 0 <= j < |s.table| && Contains(s.table[j], a) ensures j == i {
      if j < i { CoverTwo(s.table, j, i, a); }
      if i < j { CoverTwo(s.table, i, j, a); }
    }
  }

  /** The owner, for an address in one page out of 4096 from the start of a range. */
  function Answer(r: Range, a: nat): Option<nat>
    requires Contains(r, a)
  {
    if ((a - r.base) / PAGE_SIZE) % TABLE_SIZE == 0 then Some(r.owner) else None
  }

  /**
   * What the index says while the ranges are exact: an address is found, with
   * the owner of the one registered range that contains it, if and only if its
   * page is at a distance from the start of that range that is a multiple of
   * 4096 pages.
   */
  lemma OwnerInExact(s: State, k: nat, a: nat)
    requires Exact(s) && Aligned(s) && k < |s.table| && Contains(s.table[k], a)
    ensures OwnerAt(s.table, Find(s.table, a)) == Answer(s.table[k], a)
  {
    assert s.table[k] in s.table;
    RangesDisjoint(s, k, a);
    InOwnBucket(s.table[k], a);
  }

  /** So it is in every state of every run not spoiled. */
  lemma OwnerOfAllocated(states: seq<State>, events: seq<Event>, i: nat, k: nat, a: nat)
    requires IsRun(states, events) && Init(states[0]) && i < |states| && !Spoiled(states, events, i)
    requires k < |states[i].table| && Contains(states[i].table[k], a)
    ensures OwnerAt(states[i].table, Find(states[i].table, a)) == Answer(states[i].table[k], a)
  {
    RangesExact(states, events, i);
    RunAligned(states, events, i);
    OwnerInExact(states[i], k, a);
  }

  // ---------------------------------------------------------------------
  // Whose the ranges are
  // ---------------------------------------------------------------------

  /** In one of the first i steps the server read the counter for this request. */
  ghost predicate RequestedAt(states: seq<State>, events: seq<Event>, i: nat, from: nat, size: nat, base: nat)
    requires IsRun(states, events) && i < |states|
  {
    exists j :: 0 <= j < i && events[j] == RequestRead(from, size) && states[j].next == base
  }

  /** The master took the range, as its chunks or by an allocation. */
  ghost predicate MasterTook(states: seq<State>, events: seq<Event>, i: nat, r: Range)
    requires IsRun(states, events) && i < |states|
  {
    exists k :: 0 <= k < i && r.owner == MASTER_ID
                && ((events[k].Alloc? && r.base == states[k].next && r.size == AlignUp(events[k].size))
                    || (events[k].InitStore? && states[k].app.Loaded? && r.base == states[k].app.base && r.size == states[k].donated))
  }

  /** Or a worker asked for that much and is its owner. */
  ghost predicate WorkerTook(states: seq<State>, events: seq<Event>, i: nat, r: Range)
    requires IsRun(states, events) && i < |states|
  {
    exists size: nat :: AlignUp(size) == r.size && RequestedAt(states, events, i, r.owner, size, r.base)
  }

  ghost predicate Owned(states: seq<State>, events: seq<Event>, i: nat, s: State)
    requires IsRun(states, events) && i < |states|
  {
    && (forall r :: r in s.table ==> MasterTook(states, events, i, r) || WorkerTook(states, events, i, r))
    && (s.app.Holding? ==> MasterTook(states, events, i, s.app.range))
    && (s.server.Owing? ==> WorkerTook(states, events, i, s.server.range))
    && (InSection(s) ==> RequestedAt(states, events, i, s.server.from, s.server.size, s.server.base))
  }

  lemma OwnedLater(states: seq<State>, events: seq<Event>, i: nat, s: State)
    requires IsRun(states, events) && i + 1 < |states| && Owned(states, events, i, s)
    ensures Owned(states, events, i + 1, s)
  {
    forall r | WorkerTook(states, events, i, r) ensures WorkerTook(states, events, i + 1, r) {
      var size: nat :| AlignUp(size) == r.size && RequestedAt(states, events, i, r.owner, size, r.base);
      assert RequestedAt(states, events, i + 1, r.owner, size, r.base);
    }
  }

  lemma OwnedNext(states: seq<State>, events: seq<Event>, i: nat)
    requires IsRun(states, events) && i + 1 < |states| && Owned(states, events, i, states[i])
    ensures Owned(states, events, i + 1, states[i + 1])
  {
    var s, e, t := states[i], events[i], states[i + 1];
    assert Enabled(s, e) && t == Apply(s, e);
    OwnedLater(states, events, i, s);
    if e.InitStore? || e.Alloc? { assert MasterTook(states, events, i + 1, t.app.range); }
    if e.RequestRead? { assert RequestedAt(states, events, i + 1, e.from, e.size, s.next); }
    if e.RequestStore? { assert WorkerTook(states, events, i + 1, t.server.range); }
  }

  /**
   * In every state of every run a range registered is the master's own, taken
   * by it at that size, or belongs to the worker that asked for that much; a
   * range the application thread holds is the master's, one the server holds
   * is the asker's.
   */
  lemma {:induction false} RangesOwned(states: seq<State>, events: seq<Event>, i: nat)
    requires IsRun(states, events) && Init(states[0]) && i < |states|
    ensures Owned(states, events, i, states[i])
  {
    if i == 0 {
    } else {
      RangesOwned(states, events, i - 1);
      OwnedNext(states, events, i - 1);
    }
  }

  // ---------------------------------------------------------------------
  // The failures are real
  // ---------------------------------------------------------------------

  /**
   * A page granted to worker 2 and registered before the index is emptied: it
   * stays counted, and the index never finds it.
   */
  lemma LostRegistration(donated: nat) returns (states: seq<State>, events: seq<Event>)
    requires donated % PAGE_SIZE == 0 && 0 < donated < WORD32
    ensures IsRun(states, events) && Init(states[0]) && states[0].donated == donated
    ensures var t := states[|events|];
            t.app.Running? && t.server == Idle && START + PAGE_SIZE <= t.next
            && Times(t, START) == 0 && Find(t.table, START) == |t.table|
  {
    var granted := Range(START, PAGE_SIZE, 2);
    var own := Range(START + PAGE_SIZE, donated, MASTER_ID);
    var n := START + PAGE_SIZE;
    events := [RequestRead(2, 1), RequestLoad, RequestStore, ServerRegister,
               InitReset, InitRead, InitLoad, InitStore, AppRegister];
    states := [
      State(START, [], Starting, Idle, donated),
      State(START, [], Starting, Reading(2, 1, START), donated),
      State(START, [], Starting, Adding(2, 1, START, START), donated),
      State(n, [], Starting, Owing(granted), donated),
      State(n, [granted], Starting, Idle, donated),
      State(n, [], Cleared, Idle, donated),
      State(n, [], BaseRead(n), Idle, donated),
      State(n, [], Loaded(n, n), Idle, donated),
      State(n + donated, [], Holding(own), Idle, donated),
      State(n + donated, [own], Running, Idle, donated)];
    CoverCons(own, [], START);
    assert Find([own], START) == 1;
  }

  /** A page granted to worker 2 between the master's two accesses: it has two owners. */
  lemma OverlappingGrants(donated: nat) returns (states: seq<State>, events: seq<Event>)
    requires donated % PAGE_SIZE == 0 && 0 < donated < WORD32
    ensures IsRun(states, events) && Init(states[0]) && states[0].donated == donated
    ensures var t := states[|events|];
            t.app.Running? && t.server == Idle
            && t.table == [Range(START, donated, MASTER_ID), Range(START, PAGE_SIZE, 2)] && Times(t, START) == 2
  {
    var granted, own := Range(START, PAGE_SIZE, 2), Range(START, donated, MASTER_ID);
    var n := START + PAGE_SIZE;
    events := [InitReset, InitRead, RequestRead(2, 1), RequestLoad, RequestStore, ServerRegister,
               InitLoad, InitStore, AppRegister];
    states := [
      State(START, [], Starting, Idle, donated),
      State(START, [], Cleared, Idle, donated),
      State(START, [], BaseRead(START), Idle, donated),
      State(START, [], BaseRead(START), Reading(2, 1, START), donated),
      State(START, [], BaseRead(START), Adding(2, 1, START, START), donated),
      State(n, [], BaseRead(START), Owing(granted), donated),
      State(n, [granted], BaseRead(START), Idle, donated),
      State(n, [granted], Loaded(START, n), Idle, donated),
      State(n + donated, [granted], Holding(own), Idle, donated),
      State(n + donated, [own, granted], Running, Idle, donated)];
    CoverCons(own, [granted], START);
    CoverCons(granted, [], START);
  }

  /** A request that begins before and ends after all of the master's accesses: the same. */
  lemma StraddlingRequest(donated: nat) returns (states: seq<State>, events: seq<Event>)
    requires donated % PAGE_SIZE == 0 && 0 < donated < WORD32
    ensures IsRun(states, events) && Init(states[0]) && states[0].donated == donated
    ensures var t := states[|events|];
            t.app.Running? && t.server == Idle
            && t.table == [Range(START, PAGE_SIZE, 2), Range(START, donated, MASTER_ID)] && Times(t, START) == 2
  {
    var granted, own := Range(START, PAGE_SIZE, 2), Range(START, donated, MASTER_ID);
    var n := START + donated;
    events := [InitReset, RequestRead(2, 1), InitRead, InitLoad, InitStore, AppRegister,
               RequestLoad, RequestStore, ServerRegister];
    states := [
      State(START, [], Starting, Idle, donated),
      State(START, [], Cleared, Idle, donated),
      State(START, [], Cleared, Reading(2, 1, START), donated),
      State(START, [], BaseRead(START), Reading(2, 1, START), donated),
      State(START, [], Loaded(START, START), Reading(2, 1, START), donated),
      State(n, [], Holding(own), Reading(2, 1, START), donated),
      State(n, [own], Running, Reading(2, 1, START), donated),
      State(n, [own], Running, Adding(2, 1, START, n), donated),
      State(n + PAGE_SIZE, [own], Running, Owing(granted), donated),
      State(n + PAGE_SIZE, [granted, own], Running, Idle, donated)];
    CoverCons(granted, [own], START);
    CoverCons(own, [], START);
  }

  /** A straddling request even for nothing sets the counter back into the master's chunks. */
  lemma CounterSetBack(donated: nat) returns (states: seq<State>, events: seq<Event>)
    requires donated % PAGE_SIZE == 0 && 0 < donated < WORD32
    ensures IsRun(states, events) && Init(states[0]) && states[0].donated == donated
    ensures var t := states[|events|]; t.next == START && t.app == Holding(Range(START, donated, MASTER_ID))
  {
    var own := Range(START, donated, MASTER_ID);
    events := [InitReset, RequestRead(2, 0), RequestLoad, InitRead, InitLoad, InitStore, RequestStore];
    states := [
      State(START, [], Starting, Idle, donated),
      State(START, [], Cleared, Idle, donated),
      State(START, [], Cleared, Reading(2, 0, START), donated),
      State(START, [], Cleared, Adding(2, 0, START, START), donated),
      State(START, [], BaseRead(START), Adding(2, 0, START, START), donated),
      State(START, [], Loaded(START, START), Adding(2, 0, START, START), donated),
      State(START + donated, [], Holding(own), Adding(2, 0, START, START), donated),
      State(START, [], Holding(own), Owing(Range(START, 0, 2)), donated)];
  }

  // ---------------------------------------------------------------------
  // The steps in memory
  // ---------------------------------------------------------------------

  class Allocator {
    var next: nat
    const table: OwnershipTable

    constructor ()
      ensures table.Valid() && next == START && table.all == [] && fresh(table) && fresh(table.chains)
    {
      next := START;
      table := new OwnershipTable();
    }

    /** The section under the allocation mutex, when nothing comes between. */
    method CountUp(size: nat) returns (base: nat)
      requires next + size + PAGE_SIZE < WORD
      modifies this`next
      ensures base == old(next) && next == old(next) + AlignUp(size)
    {
      base := next;
      next := next + AlignUp(size);
    }

    /** `dsm_mem_alloc` up to the registration. */
    method Alloc(size: nat, ghost s: State) returns (range: Option<Range>)
      requires s.app.Running? && !InSection(s) && s.next == next && next + size + PAGE_SIZE < WORD
      modifies this`next
      ensures range.Some? <==> Enabled(s, Event.Alloc(size))
      ensures range.None? ==> next == old(next)
      ensures range.Some? ==> var t := Apply(s, Event.Alloc(size)); next == t.next && range.value == t.app.range
      ensures range.Some? <==> size > 0
      ensures range.Some? ==> range.value == Range(old(next), AlignUp(size), MASTER_ID) && next == old(next) + AlignUp(size)
    {
      if size == 0 {
        return None;
      }
      var base := CountUp(size);
      range := Some(Range(base, AlignUp(size), MASTER_ID));
    }

    /** ALLOC_REQUEST up to the registration, its three accesses one after the
        other; a request for nothing takes an empty range. */
    method Request(from: nat, size: nat, ghost s: State) returns (range: Range)
      requires s.server == Idle && s.next == next && next + size + PAGE_SIZE < WORD
      modifies this`next
      ensures var t := Apply(Apply(Apply(s, RequestRead(from, size)), RequestLoad), RequestStore);
              next == t.next && Owing(range) == t.server
      ensures range == Range(old(next), AlignUp(size), from) && next == old(next) + AlignUp(size)
    {
      var base := CountUp(size);
      range := Range(base, AlignUp(size), from);
    }
  }
}
