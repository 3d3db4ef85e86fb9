/**
 * The distributed lock as a transition system: the master's record, the
 * worker's shadow of it, the two master threads that may hold a grant not yet
 * sent, and the messages in flight.  The state is what concerns one lock id;
 * the handlers touch nothing else (LockRecord.LockTable), so a run of the
 * system is such a run for every lock id.
 */
module LockProtocol {
  import opened Common
  import opened LockRecord

  /** Where the application thread of a worker stands. */
  datatype WorkerPc = Idle | Waiting | Critical | Releasing

  /** The same on the master, which asleep waits on the condition variable. */
  datatype MasterPc = MIdle | MAsleep | MCritical | MUnlocking

  datatype UpMessage = LockRequest | LockRelease

  /** `up` is FIFO to the master; `down` counts grants on their way back. */
  datatype Worker = Worker(pc: WorkerPc, locked: bool, holder: nat, up: seq<UpMessage>, down: nat)

  datatype State = State(
    record: Record,
    master: MasterPc,
    serverGrant: Option<nat>,  // dropped the mutex in the server thread, grant not sent yet
    appGrant: Option<nat>,     // the same in the master's application thread
    workers: map<nat, Worker>,
    ready: bool)               // the master has initialized its locks

  datatype Event =
    | SendRequest(w: nat)
    | Observe(w: nat)
    | SendRelease(w: nat)
    | ClearShadow(w: nat)
    | Receive(w: nat)
    | ServerSend
    | AppSend
    | Deliver(w: nat)
    | SyncInit
    | MasterLock
    | SpuriousWake
    | MasterUnlock
    | MasterSignal

  const NEW_WORKER := Worker(Idle, false, 0, [], 0)

  /** The worker's own record of the lock; nobody queues there. */
  function ShadowOf(k: Worker): Record {
    Record(k.locked, k.holder, [])
  }

  function SetShadow(k: Worker, r: Record): Worker {
    k.(locked := r.locked, holder := r.holder)
  }

  ghost predicate Init(s: State) {
    && s.record == FREE && s.master == MIdle && s.serverGrant == None && s.appGrant == None && !s.ready
    && |s.workers.Keys| < MAX_NODES
    && (forall w :: w in s.workers ==> w > MASTER_ID && s.workers[w] == NEW_WORKER)
  }

  predicate Enabled(s: State, e: Event) {
    match e
    case SendRequest(w) => w in s.workers && s.workers[w].pc == Idle
    case Observe(w) => w in s.workers && s.workers[w].pc == Waiting
                       && Granted(ShadowOf(s.workers[w]), w)
    case SendRelease(w) => w in s.workers && s.workers[w].pc == Critical
    case ClearShadow(w) => w in s.workers && s.workers[w].pc == Releasing
    case Receive(w) => w in s.workers && s.workers[w].up != [] && s.serverGrant == None
    case ServerSend => s.serverGrant.Some? && s.serverGrant.value in s.workers
    case AppSend => s.appGrant.Some? && s.appGrant.value in s.workers
    case Deliver(w) => w in s.workers && s.workers[w].down > 0
    case SyncInit => !s.ready
    case MasterLock => s.master == MIdle && s.ready
    case SpuriousWake => s.master == MAsleep
    case MasterUnlock => s.master == MCritical
    case MasterSignal => s.master == MUnlocking && s.appGrant == None
  }

  /** The master tests its guard, at the call and after any wake-up. */
  function MasterTest(s: State): State {
    if Blocked(s.record, MASTER_ID) then s.(master := MAsleep)
    else s.(master := MCritical, record := Take(s.record, MASTER_ID))
  }

  function Put(s: State, w: nat, k: Worker): State {
    s.(workers := s.workers[w := k])
  }

  function Apply(s: State, e: Event): State
    requires Enabled(s, e)
  {
    match e
    case SendRequest(w) =>
      var k := s.workers[w];
      Put(s, w, k.(pc := Waiting, up := k.up + [LockRequest]))
    case Observe(w) =>
      Put(s, w, s.workers[w].(pc := Critical))
    case SendRelease(w) =>
      var k := s.workers[w];
      Put(s, w, k.(pc := Releasing, up := k.up + [LockRelease]))
    case ClearShadow(w) =>
      var k := s.workers[w];
      Put(s, w, SetShadow(k, Cleared(ShadowOf(k))).(pc := Idle))
    case Receive(w) =>
      var k := s.workers[w];
      var reply := if k.up[0].LockRequest? then OnRequest(s.record, w) else OnRelease(s.record, w);
      Put(s, w, k.(up := k.up[1..])).(record := reply.record, serverGrant := reply.grant)
    case ServerSend =>
      var w := s.serverGrant.value;
      Put(s, w, s.workers[w].(down := s.workers[w].down + 1)).(serverGrant := None)
    case AppSend =>
      var w := s.appGrant.value;
      Put(s, w, s.workers[w].(down := s.workers[w].down + 1)).(appGrant := None)
    case Deliver(w) =>
      var k := s.workers[w];
      Put(s, w, SetShadow(k, Take(ShadowOf(k), w)).(down := k.down - 1))
    case SyncInit => s.(record := FREE, ready := true)
    case MasterLock => MasterTest(s)
    case SpuriousWake => MasterTest(s)
    case MasterUnlock =>
      var reply := OnRelease(s.record, MASTER_ID);
      s.(master := MUnlocking, record := reply.record, appGrant := reply.grant)
    case MasterSignal => s.(master := MIdle)
  }

  /** A run: states[i] goes to states[i+1] by events[i]. */
  ghost predicate IsRun(states: seq<State>, events: seq<Event>) {
    && |states| == |events| + 1
    && (forall i {:trigger events[i]} :: 0 <= i < |events| ==>
          Enabled(states[i], events[i]) && states[i + 1] == Apply(states[i], events[i]))
  }

  lemma RunCons(s: State, e: Event, states: seq<State>, events: seq<Event>)
    requires Enabled(s, e) && IsRun(states, events) && states[0] == Apply(s, e)
    ensures IsRun([s] + states, [e] + events)
  {
    var all, steps := [s] + states, [e] + events;
    forall i | 0 <= i < |steps| ensures Enabled(all[i], steps[i]) && all[i + 1] == Apply(all[i], steps[i]) {
      if i > 0 { assert all[i] == states[i - 1] && steps[i] == events[i - 1]; }
    }
  }

  // ---------------------------------------------------------------------
  // Token conservation
  // ---------------------------------------------------------------------

  function Nodes(s: State): set<nat> {
    s.workers.Keys + {MASTER_ID}
  }

  predicate InCritical(s: State, n: nat) {
    if n == MASTER_ID then s.master == MCritical else n in s.workers && s.workers[n].pc == Critical
  }

  function Count(up: seq<UpMessage>, m: UpMessage): nat {
    if up == [] then 0 else One(up[0] == m) + Count(up[1..], m)
  }

  lemma {:induction false} CountAppend(up: seq<UpMessage>, m: UpMessage, x: UpMessage)
    ensures Count(up + [m], x) == Count(up, x) + One(m == x)
  {
    if up == [] {
    } else {
      CountAppend(up[1..], m, x);
      assert (up + [m])[1..] == up[1..] + [m];
    }
  }

  lemma CountOne(up: seq<UpMessage>, m: UpMessage)
    requires 0 < Count(up, m) && |up| == 1
    ensures up[0] == m
  {
    assert up[1..] == [];
  }

  /** Grants to w still on their way: not sent, or in flight. */
  function Pending(s: State, w: nat): nat {
    One(s.serverGrant == Some(w)) + One(s.appGrant == Some(w))
  }

  /** A delivered grant the waiting thread has not observed yet. */
  function Arrived(k: Worker): nat {
    k.down + One(k.pc == Waiting && k.locked)
  }

  /** All the forms in which the lock can be at node n. */
  function Tokens(s: State, n: nat): nat
    requires n in Nodes(s)
  {
    if n == MASTER_ID then One(s.master == MCritical)
    else
      var k := s.workers[n];
      One(k.pc == Critical) + Pending(s, n) + Arrived(k) + Count(k.up, LockRelease)
  }

  /**
   * What holds of one worker, given whether the record names it as holder,
   * whether it is queued, and how many grants to it are still unsent.
   */
  ghost predicate WorkerOk(w: nat, k: Worker, holds: bool, queued: bool, pending: nat) {
    && |k.up| <= 2 && (|k.up| == 2 ==> k.up[0] == LockRelease && k.up[1] == LockRequest)
    && One(k.pc == Critical) + pending + Arrived(k) + Count(k.up, LockRelease) == One(holds)
    // exactly one request is outstanding while waiting, none otherwise
    && Count(k.up, LockRequest) + One(queued) + pending + Arrived(k) == One(k.pc == Waiting)
    && (queued ==> k.up == [])
    && (k.pc in {Critical, Releasing} ==> k.locked)
    && (k.pc == Idle ==> !k.locked)
    && k.holder == (if k.locked then w else 0)
  }

  ghost predicate WorkerInv(s: State, w: nat)
    requires w in s.workers
  {
    WorkerOk(w, s.workers[w], s.record.locked && s.record.holder == w, w in s.record.queue, Pending(s, w))
  }

  ghost predicate WorkersOk(s: State) {
    forall w {:trigger WorkerInv(s, w)} :: w in s.workers ==> WorkerInv(s, w)
  }

  ghost predicate RecordOk(s: State) {
    && |s.workers.Keys| < MAX_NODES
    && (forall w :: w in s.workers ==> w > MASTER_ID)
    && Distinct(s.record.queue)
    && (forall w :: w in s.record.queue ==> w in s.workers)
    && Settled(s.record)
    && (s.record.locked ==> s.record.holder in Nodes(s))
    && (!s.record.locked ==> s.record.holder == 0)
    && (s.master == MCritical <==> s.record.locked && s.record.holder == MASTER_ID)
    && (!s.ready ==> s.master == MIdle)
    && (s.serverGrant.Some? ==> s.serverGrant.value in s.workers)
    && (s.appGrant.Some? ==> s.appGrant.value in s.workers && s.master == MUnlocking)
  }

  ghost predicate Inv(s: State) {
    RecordOk(s) && WorkersOk(s)
  }

  lemma InitInv(s: State)
    requires Init(s)
    ensures Inv(s)
  {
  }

  lemma PutWorker(s: State, w: nat, k: Worker, v: nat)
    requires w in s.workers && v in s.workers && WorkerInv(s, v)
    requires WorkerOk(w, k, s.record.locked && s.record.holder == w, w in s.record.queue, Pending(s, w))
    ensures WorkerInv(Put(s, w, k), v)
  {
  }

  /** The shadow and channel of one worker may change if it stays well-formed. */
  lemma PutInv(s: State, w: nat, k: Worker)
    requires Inv(s) && w in s.workers
    requires WorkerOk(w, k, s.record.locked && s.record.holder == w, w in s.record.queue, Pending(s, w))
    ensures Inv(Put(s, w, k))
  {
    assert Put(s, w, k).workers.Keys == s.workers.Keys;
    forall v | v in s.workers ensures WorkerInv(Put(s, w, k), v) {
      assert WorkerInv(s, v);
      PutWorker(s, w, k, v);
    }
  }

  lemma SendUpInv(s: State, e: Event)
    requires Inv(s) && Enabled(s, e) && (e.SendRequest? || e.SendRelease?)
    ensures Inv(Apply(s, e))
  {
    var k := s.workers[e.w];
    var m := if e.SendRequest? then LockRequest else LockRelease;
    assert WorkerInv(s, e.w);
    CountAppend(k.up, m, LockRequest);
    CountAppend(k.up, m, LockRelease);
    PutInv(s, e.w, k.(pc := if e.SendRequest? then Waiting else Releasing, up := k.up + [m]));
  }

  lemma ShadowInv(s: State, e: Event)
    requires Inv(s) && Enabled(s, e) && (e.Observe? || e.ClearShadow? || e.Deliver?)
    ensures Inv(Apply(s, e))
  {
    assert WorkerInv(s, e.w);
    PutInv(s, e.w, Apply(s, e).workers[e.w]);
  }

  /** No step at the master breaks a worker, given the record is in order. */
  lemma MasterSideWorker(s: State, e: Event, v: nat)
    requires RecordOk(s) && |s.record.queue| < MAX_NODES && Enabled(s, e) && v in s.workers && WorkerInv(s, v)
    requires e.ServerSend? || e.AppSend? || e.MasterLock? || e.SpuriousWake? || e.MasterUnlock? || e.MasterSignal?
             || (e.SyncInit? && !s.record.locked)
    ensures WorkerInv(Apply(s, e), v)
  {
  }

  lemma ReceiveSender(s: State, w: nat)
    requires RecordOk(s) && |s.record.queue| < MAX_NODES && Enabled(s, Receive(w)) && WorkerInv(s, w)
    ensures WorkerInv(Apply(s, Receive(w)), w)
  {
  }

  lemma ReceiveOther(s: State, w: nat, v: nat)
    requires RecordOk(s) && |s.record.queue| < MAX_NODES && Enabled(s, Receive(w))
    requires v in s.workers && v != w && WorkerInv(s, v) && WorkerInv(s, w)
    ensures WorkerInv(Apply(s, Receive(w)), v)
  {
  }

  lemma MasterSideRecord(s: State, e: Event)
    requires RecordOk(s) && Enabled(s, e)
    requires e.ServerSend? || e.AppSend? || e.MasterLock? || e.SpuriousWake? || e.MasterUnlock? || e.MasterSignal?
             || (e.SyncInit? && !s.record.locked)
    ensures RecordOk(Apply(s, e))
  {
    assert Apply(s, e).workers.Keys == s.workers.Keys;
  }

  lemma ReceiveRecord(s: State, w: nat)
    requires RecordOk(s) && |s.record.queue| < MAX_NODES && Enabled(s, Receive(w)) && WorkerInv(s, w)
    ensures RecordOk(Apply(s, Receive(w)))
  {
    assert Apply(s, Receive(w)).workers.Keys == s.workers.Keys;
  }

  /** The queue has a free slot whenever a request is handled: none is dropped. */
  lemma NeverFull(s: State)
    requires RecordOk(s)
    ensures |s.record.queue| < MAX_NODES
  {
    DistinctFits(s.record.queue, s.workers.Keys);
  }

  lemma StepInv(s: State, e: Event)
    requires Inv(s) && Enabled(s, e) && (e.SyncInit? ==> !s.record.locked)
    ensures Inv(Apply(s, e))
  {
    NeverFull(s);
    match e
    case SendRequest(_) => SendUpInv(s, e);
    case SendRelease(_) => SendUpInv(s, e);
    case Observe(_) => ShadowInv(s, e);
    case ClearShadow(_) => ShadowInv(s, e);
    case Deliver(_) => ShadowInv(s, e);
    case Receive(w) =>
      assert WorkerInv(s, w);
      ReceiveRecord(s, w);
      forall v | v in Apply(s, e).workers ensures WorkerInv(Apply(s, e), v) {
        assert WorkerInv(s, v);
        if v == w { ReceiveSender(s, w); } else { ReceiveOther(s, w, v); }
      }
    case _ =>
      MasterSideRecord(s, e);
      forall v | v in Apply(s, e).workers ensures WorkerInv(Apply(s, e), v) {
        assert WorkerInv(s, v);
        MasterSideWorker(s, e, v);
      }
  }

  /** The master's initialization, if among the first i steps, finds the lock free. */
  ghost predicate ResetFree(states: seq<State>, events: seq<Event>, i: nat)
    requires IsRun(states, events) && i < |states|
  {
    forall k {:trigger events[k]} :: 0 <= k < i && events[k] == SyncInit ==> !states[k].record.locked
  }

  lemma {:induction false} RunInv(states: seq<State>, events: seq<Event>, i: nat)
    requires IsRun(states, events) && Init(states[0]) && i < |states| && ResetFree(states, events, i)
    ensures Inv(states[i])
  {
    if i == 0 {
      InitInv(states[0]);
    } else {
      RunInv(states, events, i - 1);
      StepInv(states[i - 1], events[i - 1]);
    }
  }

  /** Tokens at the nodes with an id below the bound. */
  function TokensBelow(s: State, bound: nat): nat {
    if bound == 0 then 0
    else TokensBelow(s, bound - 1) + (if bound - 1 in Nodes(s) then Tokens(s, bound - 1) else 0)
  }

  lemma {:induction false} TokensSum(s: State, bound: nat)
    requires Inv(s)
    ensures TokensBelow(s, bound) == One(s.record.locked && s.record.holder < bound)
  {
    if bound == 0 {
    } else {
      TokensSum(s, bound - 1);
      var n := bound - 1;
      if n in s.workers {
        assert WorkerInv(s, n);
      }
    }
  }

  /**
   * Conservation: in every state of every run the lock is in exactly one
   * place, be it free at the master, held, in a grant or in a release.
   */
  lemma TokenConservation(states: seq<State>, events: seq<Event>, i: nat, bound: nat)
    requires IsRun(states, events) && Init(states[0]) && i < |states| && ResetFree(states, events, i)
    requires forall n :: n in Nodes(states[i]) ==> n < bound
    ensures One(!states[i].record.locked) + TokensBelow(states[i], bound) == 1
  {
    RunInv(states, events, i);
    TokensSum(states[i], bound);
  }

  /** At most one node is between the return of its lock and its unlock call. */
  lemma MutualExclusion(states: seq<State>, events: seq<Event>, i: nat, n: nat, m: nat)
    requires IsRun(states, events) && Init(states[0]) && i < |states| && ResetFree(states, events, i)
    requires InCritical(states[i], n) && InCritical(states[i], m)
    ensures n == m && states[i].record.locked && states[i].record.holder == n
  {
    RunInv(states, events, i);
    var s := states[i];
    if n != MASTER_ID { assert WorkerInv(s, n); }
    if m != MASTER_ID { assert WorkerInv(s, m); }
  }

  /**
   * No message of a run meets an error branch: a request always finds a free
   * slot, a release always comes from the holder, and an unlock clears a
   * shadow that no later grant has set.
   */
  lemma NoErrorBranch(states: seq<State>, events: seq<Event>, i: nat)
    requires IsRun(states, events) && Init(states[0]) && i < |events| && ResetFree(states, events, i)
    ensures var s, e := states[i], events[i];
            && (e.Receive? && s.workers[e.w].up[0] == LockRequest ==>
                  AcceptedBy(s.record, Request(e.w)) == [e.w])
            && (e.Receive? && s.workers[e.w].up[0] == LockRelease ==> OnRelease(s.record, e.w).status == 0)
            && (e.MasterUnlock? ==> OnRelease(s.record, MASTER_ID).status == 0)
            && (e.ClearShadow? ==> Pending(s, e.w) + s.workers[e.w].down == 0 && e.w !in s.record.queue)
  {
    RunInv(states, events, i);
    var s, e := states[i], events[i];
    NeverFull(s);
    if e.Receive? || e.ClearShadow? { assert WorkerInv(s, e.w); }
  }

  /**
   * A waiting worker whose shadow is granted is the holder by the master's
   * record, and has no grant still coming; the shadow is granted throughout
   * the critical section, and free when the worker is idle.  Once the worker
   * has let go the record names it exactly while its release is on the way.
   */
  predicate ShadowTells(s: State, w: nat)
    requires w in s.workers
  {
    var k := s.workers[w];
    var granted, holds := Granted(ShadowOf(k), w), Granted(s.record, w);
    && (ShadowOf(k) == Take(FREE, w) || ShadowOf(k) == FREE)
    && (k.pc == Waiting && granted ==> holds && k.down == 0 && Pending(s, w) == 0)
    && (k.pc == Critical ==> granted && holds)
    && (k.pc == Idle ==> !granted)
    && (k.pc == Releasing ==> granted)
    && (k.pc == Idle || k.pc == Releasing ==> (holds <==> Count(k.up, LockRelease) == 1))
  }

  lemma ShadowIn(s: State, w: nat)
    requires w in s.workers && WorkerInv(s, w)
    ensures ShadowTells(s, w)
  {
  }

  /** So a shadow tells the truth in every state of every run. */
  lemma ShadowTruth(states: seq<State>, events: seq<Event>, i: nat, w: nat)
    requires IsRun(states, events) && Init(states[0]) && i < |states| && ResetFree(states, events, i) && w in states[i].workers
    ensures ShadowTells(states[i], w)
  {
    RunInv(states, events, i);
    assert WorkerInv(states[i], w);
    ShadowIn(states[i], w);
  }

  // ---------------------------------------------------------------------
  // Progress of a queued worker
  // ---------------------------------------------------------------------

  function IndexOf(q: seq<nat>, w: nat): nat
    requires w in q
  {
    if q[0] == w then 0 else 1 + IndexOf(q[1..], w)
  }

  lemma {:induction false} IndexOfAppend(q: seq<nat>, w: nat, x: nat)
    requires w in q
    ensures IndexOf(q + [x], w) == IndexOf(q, w)
  {
    if q[0] == w {
    } else {
      IndexOfAppend(q[1..], w, x);
      assert (q + [x])[1..] == q[1..] + [x];
    }
  }

  lemma {:induction false} IndexOfBound(q: seq<nat>, w: nat)
    requires w in q
    ensures IndexOf(q, w) < |q|
  {
    if q[0] == w {
    } else {
      IndexOfBound(q[1..], w);
    }
  }

  /** How far a held lock is from coming back to the master: 5 down to 1. */
  function Stage(s: State): nat {
    var h := s.record.holder;
    if h == MASTER_ID then 1
    else if Pending(s, h) > 0 then 5
    else if h !in s.workers then 0
    else if s.workers[h].down > 0 then 4
    else if s.workers[h].pc == Waiting && s.workers[h].locked then 3
    else if s.workers[h].pc == Critical then 2
    else 1
  }

  /** The step that moves a held lock on: the master's unlock, or by stage. */
  function Helpful(s: State): Event {
    var h := s.record.holder;
    if h == MASTER_ID then MasterUnlock
    else if s.serverGrant == Some(h) then ServerSend
    else if s.appGrant == Some(h) then AppSend
    else match Stage(s)
      case 4 => Deliver(h)
      case 3 => Observe(h)
      case 2 => SendRelease(h)
      case _ => Receive(h)
  }

  /** A worker whose request the master has handled and that is still waiting. */
  predicate Served(s: State, w: nat) {
    w in s.workers && s.workers[w].pc == Waiting && (w in s.record.queue || s.record.holder == w)
    && Count(s.workers[w].up, LockRequest) == 0
  }

  /** Steps of the lock still needed before w is in its critical section. */
  function Distance(s: State, w: nat): int {
    if w in s.record.queue then 5 * IndexOf(s.record.queue, w) + Stage(s) + 3 else Stage(s) - 2
  }

  lemma ServedFacts(s: State, w: nat)
    requires Inv(s) && Served(s, w)
    ensures s.record.locked && s.record.holder in Nodes(s)
    ensures 1 <= Stage(s) <= 5 && Enabled(s, Helpful(s))
    ensures w !in s.record.queue ==> 3 <= Stage(s)
    ensures 1 <= Distance(s, w) <= 318
  {
    var h := s.record.holder;
    assert WorkerInv(s, w);
    if h != MASTER_ID { assert WorkerInv(s, h); }
    if s.serverGrant.Some? { assert WorkerInv(s, s.serverGrant.value); }
    if w in s.record.queue {
      IndexOfBound(s.record.queue, w);
      DistinctFits(s.record.queue, s.workers.Keys);
    }
  }

  /** What taking the helpful step does for w. */
  ghost predicate Nearer(s: State, w: nat)
    requires Enabled(s, Helpful(s))
  {
    var t := Apply(s, Helpful(s));
    && (if Distance(s, w) == 1 then InCritical(t, w) else Served(t, w))
    && (Distance(s, w) > 1 ==> Distance(t, w) == Distance(s, w) - 1)
  }

  lemma HandedOn(s: State, w: nat)
    requires Inv(s) && Served(s, w) && Enabled(s, Helpful(s)) && (Helpful(s).Receive? || Helpful(s).MasterUnlock?)
    ensures Nearer(s, w)
  {
    ServedFacts(s, w);
    var h, q := s.record.holder, s.record.queue;
    assert WorkerInv(s, w);
    if h != MASTER_ID {
      assert WorkerInv(s, h);
      if |s.workers[h].up| == 1 { CountOne(s.workers[h].up, LockRelease); }
    }
    assert q[0] in s.workers;
    assert Apply(s, Helpful(s)).record == Record(true, q[0], q[1..]);
  }

  lemma MovedOn(s: State, w: nat)
    requires Inv(s) && Served(s, w) && Enabled(s, Helpful(s)) && !(Helpful(s).Receive? || Helpful(s).MasterUnlock?)
    ensures Nearer(s, w)
  {
    ServedFacts(s, w);
    assert WorkerInv(s, w) && WorkerInv(s, s.record.holder);
  }

  /** The step that moves the lock on is enabled and brings w one step closer. */
  lemma HelpfulDecreases(s: State, w: nat)
    requires Inv(s) && Served(s, w)
    ensures Enabled(s, Helpful(s)) && Nearer(s, w)
  {
    ServedFacts(s, w);
    if Helpful(s).Receive? || Helpful(s).MasterUnlock? {
      HandedOn(s, w);
    } else {
      MovedOn(s, w);
    }
  }

  /** Every other step leaves the lock where it is and w where it was. */
  ghost predicate Unmoved(s: State, e: Event, w: nat)
    requires Enabled(s, e)
  {
    var t := Apply(s, e);
    Served(t, w) && Helpful(t) == Helpful(s) && Distance(t, w) == Distance(s, w)
  }

  /** The holder is where it was on its way, whoever it is. */
  ghost predicate SameStage(s: State, t: State) {
    t.record.holder == s.record.holder && Stage(t) == Stage(s) && Helpful(t) == Helpful(s)
  }

  lemma SendUpStage(s: State, e: Event)
    requires Inv(s) && s.record.locked && Enabled(s, e) && e != Helpful(s) && (e.SendRequest? || e.SendRelease?)
    ensures SameStage(s, Apply(s, e))
  {
    var h := s.record.holder;
    assert WorkerInv(s, e.w);
    if h != MASTER_ID { assert WorkerInv(s, h); }
  }

  lemma ClearStage(s: State, e: Event)
    requires Inv(s) && s.record.locked && Enabled(s, e) && e.ClearShadow?
    ensures SameStage(s, Apply(s, e))
  {
    var h := s.record.holder;
    assert WorkerInv(s, e.w);
    if h != MASTER_ID { assert WorkerInv(s, h); }
  }

  lemma MasterStage(s: State, e: Event)
    requires Inv(s) && s.record.locked && Enabled(s, e) && e != Helpful(s)
    requires e.MasterLock? || e.SpuriousWake? || e.MasterUnlock? || e.MasterSignal?
    ensures SameStage(s, Apply(s, e)) && Apply(s, e).record == s.record
  {
    var h := s.record.holder;
    if h != MASTER_ID { assert WorkerInv(s, h); }
  }

  /** A worker that waits for the master to serve it does nothing of this itself. */
  lemma LocalServed(s: State, e: Event, w: nat)
    requires Inv(s) && Served(s, w) && Enabled(s, e) && (e.SendRequest? || e.SendRelease? || e.ClearShadow?)
    ensures Served(Apply(s, e), w) && Apply(s, e).record == s.record
  {
  }

  /** An unsent grant is to the holder, so sending it is the helpful step. */
  lemma SendIsHelpful(s: State, e: Event)
    requires Inv(s) && Enabled(s, e) && (e.ServerSend? || e.AppSend?)
    ensures e == Helpful(s)
  {
    var h := if e.ServerSend? then s.serverGrant.value else s.appGrant.value;
    assert WorkerInv(s, h);
  }

  /** A grant in flight or in a shadow is the holder's, so taking it is the helpful step. */
  lemma TakingIsHelpful(s: State, e: Event)
    requires Inv(s) && Enabled(s, e) && (e.Deliver? || e.Observe?)
    ensures e == Helpful(s)
  {
    assert WorkerInv(s, e.w);
  }

  /** While the lock is held a release is the holder's; any other message is a request. */
  lemma ReceiveRequest(s: State, e: Event)
    requires Inv(s) && s.record.locked && Enabled(s, e) && e != Helpful(s) && e.Receive?
    ensures s.workers[e.w].up[0] == LockRequest
    ensures Apply(s, e).record == s.record.(queue := s.record.queue + [e.w])
  {
    assert WorkerInv(s, e.w);
    NeverFull(s);
  }

  lemma ReceiveStage(s: State, e: Event)
    requires Inv(s) && s.record.locked && Enabled(s, e) && e != Helpful(s) && e.Receive?
    ensures SameStage(s, Apply(s, e))
  {
    ReceiveRequest(s, e);
    var h := s.record.holder;
    assert WorkerInv(s, e.w);
    if h != MASTER_ID { assert WorkerInv(s, h); }
  }

  lemma ReceiveServed(s: State, e: Event, w: nat)
    requires Inv(s) && Served(s, w) && Enabled(s, e) && e != Helpful(s) && e.Receive?
    ensures Served(Apply(s, e), w)
    ensures w in Apply(s, e).record.queue <==> w in s.record.queue
    ensures w in s.record.queue ==> IndexOf(Apply(s, e).record.queue, w) == IndexOf(s.record.queue, w)
  {
    assert WorkerInv(s, w);
    ReceiveRequest(s, e);
    if w in s.record.queue { IndexOfAppend(s.record.queue, w, e.w); }
  }

  lemma HelpfulPersists(s: State, e: Event, w: nat)
    requires Inv(s) && Served(s, w) && Enabled(s, e) && e != Helpful(s) && !e.SyncInit?
    ensures Unmoved(s, e, w)
  {
    ServedFacts(s, w);
    match e
    case Receive(_) => ReceiveStage(s, e); ReceiveServed(s, e, w);
    case SendRequest(_) => SendUpStage(s, e); LocalServed(s, e, w);
    case SendRelease(_) => SendUpStage(s, e); LocalServed(s, e, w);
    case ClearShadow(_) => ClearStage(s, e); LocalServed(s, e, w);
    case Observe(_) => TakingIsHelpful(s, e);
    case Deliver(_) => TakingIsHelpful(s, e);
    case ServerSend => SendIsHelpful(s, e);
    case AppSend => SendIsHelpful(s, e);
    case _ => MasterStage(s, e);
  }

  /** Worker w is served and d steps away. */
  predicate StepsAway(s: State, w: nat, d: int) {
    Served(s, w) && Distance(s, w) == d
  }

  lemma HelpfulNext(s: State, w: nat, d: int)
    requires Inv(s) && StepsAway(s, w, d)
    ensures 1 <= d <= 318 && Enabled(s, Helpful(s)) && Inv(Apply(s, Helpful(s)))
    ensures if d == 1 then InCritical(Apply(s, Helpful(s)), w) else StepsAway(Apply(s, Helpful(s)), w, d - 1)
  {
    ServedFacts(s, w);
    HelpfulDecreases(s, w);
    StepInv(s, Helpful(s));
  }

  /** Bounded: from any served state, `Distance` helpful steps put w in. */
  lemma {:induction false} ReachesGrant(s: State, w: nat, d: int) returns (states: seq<State>, events: seq<Event>)
    requires Inv(s) && StepsAway(s, w, d)
    ensures IsRun(states, events) && states[0] == s && |events| == d <= 318
    ensures InCritical(states[|events|], w)
    decreases d
  {
    HelpfulNext(s, w, d);
    var e := Helpful(s);
    var t := Apply(s, e);
    var later, steps := [t], [];
    if d > 1 {
      later, steps := ReachesGrant(t, w, d - 1);
    }
    RunCons(s, e, later, steps);
    states, events := [s] + later, [e] + steps;
    assert states[|events|] == later[|steps|];
  }

  /** How many of the first i steps moved the lock on. */
  function HelpfulSteps(states: seq<State>, events: seq<Event>, i: nat): nat
    requires |states| == |events| + 1 && i <= |events|
  {
    if i == 0 then 0
    else HelpfulSteps(states, events, i - 1) + One(events[i - 1] == Helpful(states[i - 1]))
  }

  lemma DistanceStep(s: State, e: Event, w: nat)
    requires Inv(s) && Served(s, w) && Enabled(s, e) && !InCritical(Apply(s, e), w)
    requires e.SyncInit? ==> !s.record.locked
    ensures Served(Apply(s, e), w)
    ensures Distance(Apply(s, e), w) + One(e == Helpful(s)) == Distance(s, w)
  {
    ServedFacts(s, w);
    if e == Helpful(s) { HelpfulDecreases(s, w); } else { HelpfulPersists(s, e, w); }
  }

  lemma {:induction false} InvFrom(states: seq<State>, events: seq<Event>, i: nat)
    requires IsRun(states, events) && Inv(states[0]) && i < |states| && ResetFree(states, events, i)
    ensures Inv(states[i])
  {
    if i == 0 {
    } else {
      InvFrom(states, events, i - 1);
      StepInv(states[i - 1], events[i - 1]);
    }
  }

  lemma DistanceNext(states: seq<State>, events: seq<Event>, i: nat, w: nat, d: int)
    requires IsRun(states, events) && Inv(states[0]) && i < |events| && ResetFree(states, events, i + 1)
    requires StepsAway(states[i], w, d) && !InCritical(states[i + 1], w)
    ensures StepsAway(states[i + 1], w, d - One(events[i] == Helpful(states[i])))
  {
    InvFrom(states, events, i);
    DistanceStep(states[i], events[i], w);
  }

  /** A run in which w, served at first, never gets in. */
  ghost predicate Kept(states: seq<State>, events: seq<Event>, w: nat) {
    && IsRun(states, events) && Inv(states[0]) && ResetFree(states, events, |events|)
    && forall j :: 0 <= j < |states| ==> !InCritical(states[j], w)
  }

  function Left(states: seq<State>, events: seq<Event>, i: nat, d: int): int
    requires |states| == |events| + 1 && i <= |events|
  {
    d - HelpfulSteps(states, events, i)
  }

  /** Where w is after i steps of such a run. */
  predicate LeftAt(states: seq<State>, events: seq<Event>, i: nat, w: nat, d: int)
    requires |states| == |events| + 1 && i <= |events|
  {
    StepsAway(states[i], w, Left(states, events, i, d))
  }

  lemma LeftNext(states: seq<State>, events: seq<Event>, i: nat, w: nat, d: int)
    requires |states| == |events| + 1 && i < |events| && Kept(states, events, w) && LeftAt(states, events, i, w, d)
    ensures LeftAt(states, events, i + 1, w, d)
  {
    DistanceNext(states, events, i, w, Left(states, events, i, d));
  }

  lemma {:induction false} UpTo(p: nat -> bool, i: nat)
    requires p(0) && forall k: nat :: k < i && p(k) ==> p(k + 1)
    ensures p(i)
  {
    if i == 0 {
    } else {
      UpTo(p, i - 1);
    }
  }

  /** Along every run the distance shrinks by one with each helpful step, until w is in. */
  lemma LeftSteps(states: seq<State>, events: seq<Event>, w: nat, d: int)
    requires |states| == |events| + 1 && Kept(states, events, w)
    ensures forall k: nat :: k < |events| && LeftAt(states, events, k, w, d) ==> LeftAt(states, events, k + 1, w, d)
  {
    forall k: nat | k < |events| && LeftAt(states, events, k, w, d) ensures LeftAt(states, events, k + 1, w, d) {
      LeftNext(states, events, k, w, d);
    }
  }

  /** So it has by the end of the run. */
  lemma DistanceRun(states: seq<State>, events: seq<Event>, w: nat, d: int)
    requires |states| == |events| + 1 && LeftAt(states, events, 0, w, d)
    requires forall k: nat :: k < |events| && LeftAt(states, events, k, w, d) ==> LeftAt(states, events, k + 1, w, d)
    ensures LeftAt(states, events, |events|, w, d)
  {
    UpTo((k: nat) => k <= |events| && LeftAt(states, events, k, w, d), |events|);
  }

  /**
   * Bounded waiting over every run: once as many helpful steps have been taken
   * as the distance was, at most 318, the worker has been in its critical
   * section, whatever all the other nodes did in between.
   */
  lemma EntersInEveryRun(states: seq<State>, events: seq<Event>, w: nat)
    requires IsRun(states, events) && Inv(states[0]) && Served(states[0], w) && ResetFree(states, events, |events|)
    requires HelpfulSteps(states, events, |events|) >= Distance(states[0], w)
    ensures Distance(states[0], w) <= 318 && exists j :: 0 <= j <= |events| && InCritical(states[j], w)
  {
    ServedFacts(states[0], w);
    if Kept(states, events, w) {
      LeftSteps(states, events, w, Distance(states[0], w));
      DistanceRun(states, events, w, Distance(states[0], w));
      InvFrom(states, events, |events|);
      ServedFacts(states[|events|], w);
    }
  }

  // ---------------------------------------------------------------------
  // The master's own lock call
  // ---------------------------------------------------------------------

  /** At the call and at a wake-up the master takes the lock exactly if no other
      node has it, and sleeps otherwise. */
  lemma MasterTries(s: State, e: Event)
    requires Enabled(s, e) && (e.MasterLock? || e.SpuriousWake?)
    ensures var t := Apply(s, e);
            if s.record.locked && s.record.holder != MASTER_ID then t == s.(master := MAsleep)
            else t == s.(master := MCritical, record := Record(true, MASTER_ID, s.record.queue))
  {
  }

  /** The master's unlock call returns: by the sending of a grant it owes, and its
      signal, neither of which touches the record again. */
  lemma UnlockReturns(s: State)
    requires Inv(s) && Enabled(s, MasterUnlock)
    ensures var t := Apply(s, MasterUnlock);
            var u := if t.appGrant.Some? && Enabled(t, AppSend) then Apply(t, AppSend) else t;
            && (t.appGrant.Some? ==> Enabled(t, AppSend) && t.appGrant == Some(t.record.holder))
            && (t.appGrant.None? ==> t.record == FREE)
            && Enabled(u, MasterSignal) && Apply(u, MasterSignal) == u.(master := MIdle) && u.record == t.record
  {
    if s.record.queue != [] { assert s.record.queue[0] in s.record.queue; }
  }

  predicate NoSpuriousWake(events: seq<Event>, from: nat, to: nat)
    requires to <= |events|
  {
    forall k :: from <= k < to ==> events[k] != SpuriousWake
  }

  /** Nothing a worker does signals the condition variable the master sleeps on. */
  lemma {:induction false} AsleepStays(states: seq<State>, events: seq<Event>, i: nat, j: nat)
    requires IsRun(states, events) && i <= j <= |events| && NoSpuriousWake(events, i, j)
    requires states[i].master == MAsleep
    ensures states[j].master == MAsleep
    decreases j
  {
    if i == j {
    } else {
      AsleepStays(states, events, i, j - 1);
      assert events[j - 1] != SpuriousWake;
    }
  }

  /**
   * Without spurious wake-ups the master's lock call returns if and only if
   * the record is not held by another node at the moment of the call.  Found
   * held, the call never returns, even when the lock becomes free later.
   */
  lemma MasterLockReturns(states: seq<State>, events: seq<Event>, i: nat, j: nat)
    requires IsRun(states, events) && i < j <= |events| && NoSpuriousWake(events, i, j)
    requires events[i] == MasterLock
    ensures (exists k :: i < k <= j && states[k].master == MCritical) <==> !Blocked(states[i].record, MASTER_ID)
  {
    assert states[i + 1] == Apply(states[i], events[i]);
    if Blocked(states[i].record, MASTER_ID) {
      forall k | i < k <= j ensures states[k].master != MCritical {
        AsleepStays(states, events, i + 1, k);
      }
    } else {
      assert states[i + 1].master == MCritical;
    }
  }

  /** One worker, nothing in the slots of the master's threads but `grant`. */
  function Pair(record: Record, master: MasterPc, grant: Option<nat>, k: Worker): State {
    State(record, master, grant, None, map[2 := k], true)
  }

  /** Some run without spurious wake-ups leads from s to t. */
  ghost predicate Leads(s: State, t: State) {
    exists states, events :: IsRun(states, events) && NoSpuriousWake(events, 0, |events|)
                             && states[0] == s && states[|events|] == t
  }

  lemma LeadsSelf(s: State)
    ensures Leads(s, s)
  {
    assert IsRun([s], []) && NoSpuriousWake([], 0, 0);
  }

  lemma LeadsBy(s: State, e: Event, t: State, end: State)
    requires s.workers.Keys == {2} && t.workers.Keys == {2} && Enabled(s, e) && e != SpuriousWake
    requires Apply(s, e).(workers := map[]) == t.(workers := map[])
    requires Apply(s, e).workers.Keys == {2} && Apply(s, e).workers[2] == t.workers[2]
    requires Leads(t, end)
    ensures Leads(s, end)
  {
    assert Apply(s, e).workers == t.workers;
    var states, events :| IsRun(states, events) && NoSpuriousWake(events, 0, |events|)
                          && states[0] == t && states[|events|] == end;
    RunCons(s, e, states, events);
    var all, steps := [s] + states, [e] + events;
    assert NoSpuriousWake(steps, 0, |steps|) && all[|steps|] == end;
  }

  const ASKING := Worker(Waiting, false, 0, [LockRequest], 0)
  const HOLDING := Worker(Critical, true, 2, [], 0)
  const LETTING_GO := Worker(Releasing, true, 2, [LockRelease], 0)
  const HELD := Record(true, 2, [])

  lemma FirstLegs(end: State)
    requires Leads(Pair(HELD, MIdle, None, Worker(Waiting, false, 0, [], 1)), end)
    ensures Leads(Pair(FREE, MIdle, None, NEW_WORKER), end)
  {
    var sent := Pair(HELD, MIdle, Some(2), Worker(Waiting, false, 0, [], 0));
    LeadsBy(sent, ServerSend, Pair(HELD, MIdle, None, Worker(Waiting, false, 0, [], 1)), end);
    LeadsBy(Pair(FREE, MIdle, None, ASKING), Receive(2), sent, end);
    LeadsBy(Pair(FREE, MIdle, None, NEW_WORKER), SendRequest(2), Pair(FREE, MIdle, None, ASKING), end);
  }

  lemma MiddleLegs(end: State)
    requires Leads(Pair(HELD, MAsleep, None, HOLDING), end)
    ensures Leads(Pair(HELD, MIdle, None, Worker(Waiting, false, 0, [], 1)), end)
  {
    var told := Pair(HELD, MIdle, None, Worker(Waiting, true, 2, [], 0));
    LeadsBy(Pair(HELD, MIdle, None, HOLDING), MasterLock, Pair(HELD, MAsleep, None, HOLDING), end);
    LeadsBy(told, Observe(2), Pair(HELD, MIdle, None, HOLDING), end);
    LeadsBy(Pair(HELD, MIdle, None, Worker(Waiting, false, 0, [], 1)), Deliver(2), told, end);
  }

  lemma LastLegs(end: State)
    requires end == Pair(FREE, MAsleep, None, NEW_WORKER)
    ensures Leads(Pair(HELD, MAsleep, None, HOLDING), end)
  {
    var gone := Pair(FREE, MAsleep, None, Worker(Releasing, true, 2, [], 0));
    LeadsSelf(end);
    LeadsBy(gone, ClearShadow(2), end, end);
    LeadsBy(Pair(HELD, MAsleep, None, LETTING_GO), Receive(2), gone, end);
    LeadsBy(Pair(HELD, MAsleep, None, HOLDING), SendRelease(2), Pair(HELD, MAsleep, None, LETTING_GO), end);
  }

  /** The failure is real: the lock free, nothing in flight, the master asleep. */
  lemma MasterSleepsOnFreeLock(start: State)
    requires start == Pair(FREE, MIdle, None, NEW_WORKER).(ready := false)
    ensures Init(start) && Leads(start, start.(master := MAsleep, ready := true))
  {
    var end := Pair(FREE, MAsleep, None, NEW_WORKER);
    LastLegs(end);
    MiddleLegs(end);
    FirstLegs(end);
    LeadsBy(start, SyncInit, start.(ready := true), end);
  }

  // ---------------------------------------------------------------------
  // Requests handled before the master's initialization
  // ---------------------------------------------------------------------

  /** The free record and all tokens together are one. */
  ghost predicate Conserved(s: State, bound: nat) {
    One(!s.record.locked) + TokensBelow(s, bound) == 1
  }

  /** No step changes which nodes there are. */
  lemma {:induction false} NodesSame(states: seq<State>, events: seq<Event>, i: nat)
    requires IsRun(states, events) && i < |states|
    ensures Nodes(states[i]) == Nodes(states[0])
  {
    if i == 0 {
    } else {
      NodesSame(states, events, i - 1);
      assert Enabled(states[i - 1], events[i - 1]);
      assert states[i].workers.Keys == states[i - 1].workers.Keys;
    }
  }

  lemma {:induction false} TokensReset(s: State, bound: nat)
    requires Enabled(s, SyncInit)
    ensures TokensBelow(Apply(s, SyncInit), bound) == TokensBelow(s, bound)
  {
    if bound == 0 {
    } else {
      TokensReset(s, bound - 1);
    }
  }

  /** Resetting a held lock makes a second token. */
  lemma ResetBreaks(s: State, bound: nat)
    requires Inv(s) && Enabled(s, SyncInit) && s.record.locked && forall n :: n in Nodes(s) ==> n < bound
    ensures !Conserved(Apply(s, SyncInit), bound)
  {
    TokensSum(s, bound);
    TokensReset(s, bound);
  }

  /** The first reset of a held lock, if there is one; there is at most one reset in all. */
  lemma {:induction false} FirstReset(states: seq<State>, events: seq<Event>, i: nat) returns (k: nat)
    requires IsRun(states, events) && i < |states| && !ResetFree(states, events, i)
    ensures k < i && events[k] == SyncInit && states[k].record.locked && ResetFree(states, events, k)
  {
    if ResetFree(states, events, i - 1) {
      k := i - 1;
    } else {
      k := FirstReset(states, events, i - 1);
    }
  }

  /**
   * Conservation holds through a run, or any first part of it, if and only if
   * the master's initialization finds the lock free: no worker's request has
   * been granted and not yet given back before it.
   */
  lemma ConservedIffResetFree(states: seq<State>, events: seq<Event>, i: nat, bound: nat)
    requires IsRun(states, events) && Init(states[0]) && i < |states|
    requires forall n :: n in Nodes(states[0]) ==> n < bound
    ensures (forall j :: 0 <= j <= i ==> Conserved(states[j], bound)) <==> ResetFree(states, events, i)
  {
    if ResetFree(states, events, i) {
      forall j | 0 <= j <= i ensures Conserved(states[j], bound) {
        NodesSame(states, events, j);
        TokenConservation(states, events, j, bound);
      }
    } else {
      var k := FirstReset(states, events, i);
      RunInv(states, events, k);
      NodesSame(states, events, k);
      ResetBreaks(states[k], bound);
      var j := k + 1;
      assert states[j] == Apply(states[k], events[k]);
      assert j <= i && !Conserved(states[j], bound);
    }
  }

  /** Waiting, with nothing queued, pending or in flight for it. */
  predicate Forgotten(s: State, w: nat) {
    && w in s.workers && w != MASTER_ID && s.workers[w].pc == Waiting && !s.workers[w].locked
    && s.workers[w].up == [] && s.workers[w].down == 0 && Pending(s, w) == 0 && w !in s.record.queue
  }

  /** Whoever is queued at the reset is forgotten. */
  lemma ResetForgets(s: State, w: nat)
    requires Inv(s) && Enabled(s, SyncInit) && w in s.record.queue
    ensures Forgotten(Apply(s, SyncInit), w)
  {
    assert WorkerInv(s, w);
  }

  lemma ForgottenStep(s: State, e: Event, w: nat)
    requires Forgotten(s, w) && Enabled(s, e)
    ensures Forgotten(Apply(s, e), w)
  {
  }

  /** And its lock call never returns. */
  lemma {:induction false} ForgottenForever(states: seq<State>, events: seq<Event>, i: nat, j: nat, w: nat)
    requires IsRun(states, events) && i <= j < |states| && Forgotten(states[i], w)
    ensures Forgotten(states[j], w) && !InCritical(states[j], w)
    decreases j
  {
    if i == j {
    } else {
      ForgottenForever(states, events, i, j - 1, w);
      assert Enabled(states[j - 1], events[j - 1]);
      ForgottenStep(states[j - 1], events[j - 1], w);
    }
  }

  /** Some run leads from s to t. */
  ghost predicate Reaches(s: State, t: State) {
    exists states, events :: IsRun(states, events) && states[0] == s && states[|events|] == t
  }

  lemma ReachesSelf(s: State)
    ensures Reaches(s, s)
  {
    assert IsRun([s], []) && [s][0] == s;
  }

  lemma ReachesBy(s: State, e: Event, t: State, end: State)
    requires Enabled(s, e) && Apply(s, e) == t && Reaches(t, end)
    ensures Reaches(s, end)
  {
    var states, events :| IsRun(states, events) && states[0] == t && states[|events|] == end;
    RunCons(s, e, states, events);
    var all, steps := [s] + states, [e] + events;
    assert all[|steps|] == states[|events|];
  }

  lemma PutPut(s: State, w: nat, k: Worker, l: Worker)
    ensures Put(Put(s, w, k), w, l) == Put(s, w, l)
  {
    assert s.workers[w := k][w := l] == s.workers[w := l];
  }

  const TOLD := Worker(Waiting, false, 0, [], 1)

  /** With the grant on its way, worker w gets in. */
  lemma TakesGrant(s: State, w: nat, end: State)
    requires w in s.workers && Reaches(Put(s, w, Worker(Critical, true, w, [], 0)), end)
    ensures Reaches(Put(s, w, TOLD), end)
  {
    var told := Worker(Waiting, true, w, [], 0);
    PutPut(s, w, told, Worker(Critical, true, w, [], 0));
    ReachesBy(Put(s, w, told), Observe(w), Put(s, w, Worker(Critical, true, w, [], 0)), end);
    PutPut(s, w, TOLD, told);
    ReachesBy(Put(s, w, TOLD), Deliver(w), Put(s, w, told), end);
  }

  /** A new worker finds the record free and gets in. */
  lemma Acquires(s: State, w: nat, end: State)
    requires w in s.workers && s.workers[w] == NEW_WORKER && s.record == FREE && s.serverGrant == None
    requires Reaches(Put(s, w, Worker(Critical, true, w, [], 0)).(record := Record(true, w, [])), end)
    ensures Reaches(s, end)
  {
    var held := s.(record := Record(true, w, []));
    TakesGrant(held, w, end);
    var waiting := Worker(Waiting, false, 0, [], 0);
    var granted := Put(held, w, waiting).(serverGrant := Some(w));
    PutPut(held, w, waiting, TOLD);
    assert Apply(granted, ServerSend) == Put(held, w, TOLD);
    ReachesBy(granted, ServerSend, Put(held, w, TOLD), end);
    PutPut(s, w, ASKING, waiting);
    assert [LockRequest][1..] == [] && [] + [LockRequest] == [LockRequest];
    ReachesBy(Put(s, w, ASKING), Receive(w), granted, end);
    ReachesBy(s, SendRequest(w), Put(s, w, ASKING), end);
  }

  /** A run with the reset between two grants leaves two workers in their critical sections. */
  lemma TwoInCritical(start: State) returns (end: State)
    requires Init(start) && start.workers == map[2 := NEW_WORKER, 3 := NEW_WORKER]
    ensures Reaches(start, end) && InCritical(end, 2) && InCritical(end, 3)
  {
    var first := Put(start, 2, HOLDING).(record := HELD);
    var reset := first.(record := FREE, ready := true);
    end := Put(reset, 3, Worker(Critical, true, 3, [], 0)).(record := Record(true, 3, []));
    ReachesSelf(end);
    Acquires(reset, 3, end);
    ReachesBy(first, SyncInit, reset, end);
    Acquires(start, 2, end);
  }
}
