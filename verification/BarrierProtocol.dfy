/**
 * The barrier as a transition system with fixed membership.  The master enters
 * by calling the handler and then tests shared state; a worker enters by a
 * message and leaves when a release message arrives while it waits.
 */
module BarrierProtocol {
  import opened Common
  import opened BarrierRecord

  /** Sent: the entry message is out, the thread not yet waiting. */
  datatype WorkerPc = Outside | Sent | InWait

  datatype MasterPc = MOutside | MEntered | MWaiting(seen: nat)

  /** `up` and `down` count entry and release messages in flight. */
  datatype Worker = Worker(pc: WorkerPc, up: nat, down: nat, entered: nat, done: nat)

  /**
   * `rounds` counts the rounds completed, and each node's `entered` and `done`
   * its barrier calls begun and returned; nothing in the program reads these.
   */
  datatype State = State(
    round: Round, rounds: nat,
    master: MasterPc, masterEntered: nat, masterDone: nat,
    workers: map<nat, Worker>,
    ready: bool)               // the master has initialized its barrier

  datatype Event =
    | SyncInit
    | MasterEnter
    | MasterTest
    | WorkerSend(w: nat)
    | WorkerWait(w: nat)
    | Receive(w: nat)
    | Deliver(w: nat)

  ghost predicate Init(s: State) {
    && s.round == Round(0, []) && s.rounds == 0
    && s.master == MOutside && s.masterEntered == 0 && s.masterDone == 0 && !s.ready
    && |s.workers.Keys| < MAX_NODES
    && (forall w :: w in s.workers ==> w > MASTER_ID && s.workers[w] == Worker(Outside, 0, 0, 0, 0))
  }

  predicate Enabled(s: State, e: Event) {
    match e
    case SyncInit => !s.ready
    case MasterEnter => s.master == MOutside && s.ready
    case MasterTest => s.master != MOutside
    case WorkerSend(w) => w in s.workers && s.workers[w].pc == Outside
    case WorkerWait(w) => w in s.workers && s.workers[w].pc == Sent
    case Receive(w) => w in s.workers && s.workers[w].up > 0
    case Deliver(w) => w in s.workers && s.workers[w].down > 0
  }

  function Total(s: State): nat {
    |s.workers.Keys| + 1
  }

  function Times(list: seq<nat>, x: nat): nat {
    if list == [] then 0
    else Times(list[..|list| - 1], x) + (if list[|list| - 1] == x then 1 else 0)
  }

  /** The handler runs for `from`; each release it sends goes in flight. */
  function Handle(s: State, from: nat): State {
    var entry := OnEnter(s.round, from, Total(s), MASTER_ID);
    s.(round := entry.round,
       rounds := if |s.round.arrived| + 1 >= Total(s) then s.rounds + 1 else s.rounds,
       workers := map w | w in s.workers ::
                    s.workers[w].(down := s.workers[w].down + Times(entry.released, w)))
  }

  /** The master waits while the round it saw is current and somebody is in. */
  predicate MasterMustWait(s: State) {
    && s.round.arrived != []
    && (s.master.MWaiting? ==> s.master.seen == s.round.id)
  }

  function Put(s: State, w: nat, k: Worker): State {
    s.(workers := s.workers[w := k])
  }

  function Apply(s: State, e: Event): State
    requires Enabled(s, e)
  {
    match e
    case SyncInit => s.(round := Round(0, []), ready := true)
    case MasterEnter =>
      Handle(s, MASTER_ID).(master := MEntered, masterEntered := s.masterEntered + 1)
    case MasterTest =>
      if MasterMustWait(s) then s.(master := MWaiting(s.round.id))
      else s.(master := MOutside, masterDone := s.masterDone + 1)
    case WorkerSend(w) =>
      var k := s.workers[w];
      Put(s, w, k.(pc := Sent, up := k.up + 1, entered := k.entered + 1))
    case WorkerWait(w) =>
      Put(s, w, s.workers[w].(pc := InWait))
    case Receive(w) =>
      Handle(Put(s, w, s.workers[w].(up := s.workers[w].up - 1)), w)
    case Deliver(w) =>
      var k := s.workers[w].(down := s.workers[w].down - 1);
      Put(s, w, if k.pc == InWait then k.(pc := Outside, done := k.done + 1) else k)
  }

  ghost predicate IsRun(states: seq<State>, events: seq<Event>) {
    && |states| == |events| + 1
    && (forall i {:trigger events[i]} :: 0 <= i < |events| ==>
          Enabled(states[i], events[i]) && states[i + 1] == Apply(states[i], events[i]))
  }

  // ---------------------------------------------------------------------
  // What every step keeps
  // ---------------------------------------------------------------------

  /**
   * A worker is outside with every round done, inside a round still open, or
   * inside a round already opened, with at most one release on its way.
   */
  predicate WorkerOk(k: Worker, listed: bool, rounds: nat) {
    && (k.pc == Outside ==> k.entered == k.done == rounds && k.up == 0 && k.down == 0 && !listed)
    && (k.pc != Outside ==> k.entered == k.done + 1)
    && (k.pc != Outside && k.done == rounds ==> k.up + One(listed) <= 1 && k.down == 0)
    && (k.pc != Outside && k.done != rounds ==> k.done + 1 == rounds && k.up == 0 && !listed && k.down <= 1)
  }

  ghost predicate WorkersOk(s: State) {
    forall w :: w in s.workers ==> WorkerOk(s.workers[w], w in s.round.arrived, s.rounds)
  }

  predicate MasterOk(s: State) {
    var listed := MASTER_ID in s.round.arrived;
    && (!s.ready ==> s.master == MOutside && s.rounds == 0)
    && (s.master == MOutside ==> s.masterEntered == s.masterDone == s.rounds && !listed)
    && (s.master != MOutside ==> s.masterEntered == s.masterDone + 1
                                 && s.masterDone + One(!listed) == s.rounds)
    && (s.master.MWaiting? && listed ==> s.master.seen == s.round.id)
    && (s.master.MWaiting? && !listed && s.master.seen == s.round.id ==> s.round.arrived != [])
  }

  ghost predicate RoundOk(s: State) {
    && |s.workers.Keys| < MAX_NODES && MASTER_ID !in s.workers
    && s.round.id == s.rounds % WRAP
    && Distinct(s.round.arrived)
    && |s.round.arrived| < Total(s)
    && (forall n :: n in s.round.arrived ==> n == MASTER_ID || n in s.workers)
  }

  ghost predicate Inv(s: State) {
    RoundOk(s) && MasterOk(s) && WorkersOk(s)
  }

  lemma {:induction false} TimesDistinct(list: seq<nat>, x: nat)
    requires Distinct(list)
    ensures Times(list, x) == One(x in list)
  {
    if list == [] {
    } else {
      var n := |list| - 1;
      assert list == list[..n] + [list[n]];
      TimesDistinct(list[..n], x);
    }
  }

  lemma NextId(n: nat)
    ensures (n % WRAP + 1) % WRAP == (n + 1) % WRAP != n % WRAP
  {
  }

  /** When the last entry is made, every node is on the list. */
  lemma AllIn(s: State, from: nat, n: nat)
    requires RoundOk(s) && |s.round.arrived| + 1 >= Total(s)
    requires from !in s.round.arrived && (from == MASTER_ID || from in s.workers) 
    requires n == MASTER_ID || n in s.workers
    ensures n in s.round.arrived + [from]
  {
    var all := s.round.arrived + [from];
    var nodes := s.workers.Keys + {MASTER_ID};
    assert forall x :: x in all ==> x in nodes;
    DistinctFits(all, nodes);
  }

  lemma ReleasedOnce(list: seq<nat>, from: nat, w: nat)
    requires Distinct(list) && from !in list && w in list + [from] && w != MASTER_ID
    ensures Times(Others(list + [from], MASTER_ID), w) == 1
  {
    OthersMembers(list + [from], MASTER_ID, w);
    OthersDistinct(list + [from], MASTER_ID);
    TimesDistinct(Others(list + [from], MASTER_ID), w);
  }

  lemma OpensRound(s: State, from: nat)
    requires RoundOk(s) && |s.round.arrived| + 1 >= Total(s)
    ensures var t := Handle(s, from);
            && RoundOk(t) && t.round.arrived == [] && t.round.id != s.round.id && t.rounds == s.rounds + 1
            && t.workers.Keys == s.workers.Keys
  {
    NextId(s.rounds);
    assert Handle(s, from).workers.Keys == s.workers.Keys;
  }

  lemma OpensWorker(s: State, from: nat, w: nat)
    requires RoundOk(s) && |s.round.arrived| + 1 >= Total(s) && w in s.workers
    requires from !in s.round.arrived && (from == MASTER_ID || from in s.workers)
    ensures w in Handle(s, from).workers && Handle(s, from).workers[w] == s.workers[w].(down := s.workers[w].down + 1)
  {
    AllIn(s, from, w);
    ReleasedOnce(s.round.arrived, from, w);
  }

  /** An entry that completes the round frees every worker exactly once. */
  lemma HandleOpens(s: State, from: nat)
    requires RoundOk(s) && |s.round.arrived| + 1 >= Total(s)
    requires from !in s.round.arrived && (from == MASTER_ID || from in s.workers)
    ensures var t := Handle(s, from);
            && RoundOk(t) && t.round.arrived == [] && t.round.id != s.round.id && t.rounds == s.rounds + 1
            && t.workers.Keys == s.workers.Keys
            && (forall w {:trigger t.workers[w]} :: w in s.workers ==>
                  t.workers[w] == s.workers[w].(down := s.workers[w].down + 1))
    ensures forall n :: n == MASTER_ID || n in s.workers ==> n in s.round.arrived + [from]
  {
    var t := Handle(s, from);
    OpensRound(s, from);
    forall n | n == MASTER_ID || n in s.workers ensures n in s.round.arrived + [from] {
      AllIn(s, from, n);
    }
    forall w | w in s.workers ensures t.workers[w] == s.workers[w].(down := s.workers[w].down + 1) {
      OpensWorker(s, from, w);
    }
  }

  lemma HandleWaits(s: State, from: nat)
    requires RoundOk(s) && |s.round.arrived| + 1 < Total(s)
    requires from !in s.round.arrived && (from == MASTER_ID || from in s.workers)
    ensures var t := Handle(s, from);
            RoundOk(t) && t == s.(round := s.round.(arrived := s.round.arrived + [from]))
  {
    assert Handle(s, from).workers == s.workers;
  }

  /** A node on its way in: the entry is counted, the handler not yet run. */
  ghost predicate Entering(s: State, from: nat) {
    && RoundOk(s)
    && from !in s.round.arrived && (from == MASTER_ID || from in s.workers)
  }

  /** Opening the round turns every node inside it into one just released. */
  lemma OpenWorkers(s: State, from: nat, w: nat)
    requires Entering(s, from) && |s.round.arrived| + 1 >= Total(s) && w in s.workers
    requires WorkerOk(s.workers[w], w in s.round.arrived + [from], s.rounds)
    ensures w in Handle(s, from).workers && WorkerOk(Handle(s, from).workers[w], false, s.rounds + 1)
  {
    HandleOpens(s, from);
  }

  lemma HandleInv(s: State, from: nat)
    requires Entering(s, from)
    requires forall w :: w in s.workers ==> WorkerOk(s.workers[w], w in s.round.arrived + [from], s.rounds)
    ensures RoundOk(Handle(s, from)) && WorkersOk(Handle(s, from))
  {
    var t := Handle(s, from);
    assert t.workers.Keys == s.workers.Keys;
    if |s.round.arrived| + 1 >= Total(s) {
      HandleOpens(s, from);
      forall w | w in t.workers ensures WorkerOk(t.workers[w], false, t.rounds) {
        OpenWorkers(s, from, w);
      }
    } else {
      HandleWaits(s, from);
    }
  }

  lemma MasterEnterInv(s: State)
    requires Inv(s) && s.master == MOutside && s.ready
    ensures Inv(Apply(s, MasterEnter))
  {
    HandleInv(s, MASTER_ID);
    if |s.round.arrived| + 1 >= Total(s) {
      HandleOpens(s, MASTER_ID);
    }
  }

  lemma ReceiveInv(s: State, w: nat)
    requires Inv(s) && Enabled(s, Receive(w))
    ensures Inv(Apply(s, Receive(w)))
  {
    var u := Put(s, w, s.workers[w].(up := s.workers[w].up - 1));
    assert u.workers.Keys == s.workers.Keys;
    forall v | v in u.workers ensures WorkerOk(u.workers[v], v in u.round.arrived + [w], u.rounds) {
      assert WorkerOk(s.workers[v], v in s.round.arrived, s.rounds);
    }
    HandleInv(u, w);
    ReceiveMaster(s, u, w);
  }

  lemma ReceiveMaster(s: State, u: State, w: nat)
    requires MasterOk(s) && Entering(u, w) && w != MASTER_ID
    requires u == s.(workers := u.workers)
    ensures MasterOk(Handle(u, w))
  {
    if |s.round.arrived| + 1 >= Total(u) {
      HandleOpens(u, w);
      assert MASTER_ID in s.round.arrived;
    } else {
      HandleWaits(u, w);
      assert MASTER_ID in s.round.arrived + [w] <==> MASTER_ID in s.round.arrived;
    }
  }

  /** The sending, waiting and leaving of one worker. */
  lemma WorkerInv(s: State, e: Event)
    requires Inv(s) && Enabled(s, e) && (e.WorkerSend? || e.WorkerWait? || e.Deliver?)
    ensures Inv(Apply(s, e))
  {
    assert Apply(s, e).workers.Keys == s.workers.Keys;
    assert WorkerOk(s.workers[e.w], e.w in s.round.arrived, s.rounds);
  }

  lemma MasterInv(s: State, e: Event)
    requires Inv(s) && Enabled(s, e) && (e.MasterTest? || e.SyncInit?)
    ensures Inv(Apply(s, e))
  {
    if e.MasterTest? && s.round.arrived == [] { assert MASTER_ID !in s.round.arrived; }
  }

  lemma StepInv(s: State, e: Event)
    requires Inv(s) && Enabled(s, e)
    ensures Inv(Apply(s, e))
  {
    match e
    case MasterEnter => MasterEnterInv(s);
    case Receive(w) => ReceiveInv(s, w);
    case MasterTest => MasterInv(s, e);
    case SyncInit => MasterInv(s, e);
    case _ => WorkerInv(s, e);
  }

  lemma {:induction false} RunInv(states: seq<State>, events: seq<Event>, i: nat)
    requires IsRun(states, events) && Init(states[0]) && i < |states|
    ensures Inv(states[i])
  {
    if i == 0 {
    } else {
      RunInv(states, events, i - 1);
      StepInv(states[i - 1], events[i - 1]);
    }
  }

  // ---------------------------------------------------------------------
  // Safety
  // ---------------------------------------------------------------------

  predicate IsNode(s: State, n: nat) {
    n == MASTER_ID || n in s.workers
  }

  /** Barrier calls node n has begun, and those that have returned. */
  function EnteredBy(s: State, n: nat): nat
    requires IsNode(s, n)
  {
    if n == MASTER_ID then s.masterEntered else s.workers[n].entered
  }

  function DoneBy(s: State, n: nat): nat
    requires IsNode(s, n)
  {
    if n == MASTER_ID then s.masterDone else s.workers[n].done
  }

  /**
   * In every state of every run: a node that has left r barriers proves that
   * every node has entered r of them, and no two nodes are two rounds apart.
   */
  lemma BarrierSafety(states: seq<State>, events: seq<Event>, i: nat, n: nat, m: nat)
    requires IsRun(states, events) && Init(states[0]) && i < |states|
    requires IsNode(states[i], n) && IsNode(states[i], m)
    ensures DoneBy(states[i], n) <= EnteredBy(states[i], m)
    ensures -1 <= DoneBy(states[i], n) - DoneBy(states[i], m) <= 1
  {
    RunInv(states, events, i);
  }

  // ---------------------------------------------------------------------
  // The ways to lose an entry or a wake-up, and what follows
  // ---------------------------------------------------------------------

  /**
   * Inside, with nothing on its way: the release came before the thread
   * waited, or the entry is not listed, or will not stay so because the master
   * has still to initialize its barrier.
   */
  predicate WorkerBypassed(s: State, w: nat) {
    && w in s.workers && s.workers[w].pc != Outside && s.workers[w].up == 0 && s.workers[w].down == 0
    && (w !in s.round.arrived || !s.ready)
  }

  /** Its round is open, but the next one has begun and it is to wait for that. */
  predicate MasterBypassed(s: State) {
    s.master != MOutside && s.masterDone != s.rounds && MasterMustWait(s)
  }

  predicate Bypassed(s: State, n: nat) {
    if n == MASTER_ID then MasterBypassed(s) else WorkerBypassed(s, n)
  }

  ghost predicate NoneBypassed(s: State) {
    !MasterBypassed(s) && forall w: nat :: !WorkerBypassed(s, w)
  }

  lemma HandleBypassed(s: State, from: nat, n: nat)
    requires Entering(s, from) && IsNode(s, n) && n != from && n !in s.round.arrived
    ensures Handle(s, from) == s.(round := s.round.(arrived := s.round.arrived + [from]))
  {
    if |s.round.arrived| + 1 >= Total(s) {
      AllIn(s, from, n);
    } else {
      HandleWaits(s, from);
    }
  }

  /** A bypassed node is never let out, and no further round completes. */
  lemma BypassedStep(s: State, e: Event, n: nat)
    requires Inv(s) && IsNode(s, n) && Bypassed(s, n) && Enabled(s, e)
    ensures var t := Apply(s, e); IsNode(t, n) && Bypassed(t, n) && t.rounds == s.rounds
  {
    if e.MasterEnter? {
      HandleBypassed(s, MASTER_ID, n);
    } else if e.Receive? {
      assert WorkerOk(s.workers[e.w], e.w in s.round.arrived, s.rounds);
      var u := Put(s, e.w, s.workers[e.w].(up := s.workers[e.w].up - 1));
      assert u.workers.Keys == s.workers.Keys;
      HandleBypassed(u, e.w, if s.ready then n else MASTER_ID);
    } else if n != MASTER_ID {
      assert WorkerOk(s.workers[n], n in s.round.arrived, s.rounds);
    }
  }

  lemma {:induction false} BypassedForever(states: seq<State>, events: seq<Event>, i: nat, n: nat)
    requires IsRun(states, events) && i < |states|
    requires Inv(states[0]) && IsNode(states[0], n) && Bypassed(states[0], n)
    ensures Inv(states[i]) && IsNode(states[i], n) && Bypassed(states[i], n)
    ensures states[i].rounds == states[0].rounds
  {
    if i == 0 {
    } else {
      BypassedForever(states, events, i - 1, n);
      StepInv(states[i - 1], events[i - 1]);
      BypassedStep(states[i - 1], events[i - 1], n);
    }
  }

  /** The handler bypasses no worker, nor the one that enters. */
  lemma HandleKeeps(s: State, from: nat)
    requires Entering(s, from) && s.ready
    requires forall w :: w in s.workers ==> WorkerOk(s.workers[w], w in s.round.arrived + [from], s.rounds)
    requires forall w: nat :: w != from ==> !WorkerBypassed(s, w)
    ensures forall w: nat :: !WorkerBypassed(Handle(s, from), w)
  {
    if |s.round.arrived| + 1 >= Total(s) {
      HandleOpens(s, from);
    } else {
      HandleWaits(s, from);
      forall w: nat ensures !WorkerBypassed(Handle(s, from), w) {
        if w != from { assert !WorkerBypassed(s, w); }
      }
    }
  }

  lemma MasterEnterBypass(s: State)
    requires Inv(s) && NoneBypassed(s) && s.master == MOutside && s.ready
    ensures NoneBypassed(Apply(s, MasterEnter))
  {
    HandleKeeps(s, MASTER_ID);
    var h, t := Handle(s, MASTER_ID), Apply(s, MasterEnter);
    forall w: nat ensures !WorkerBypassed(t, w) {
      assert !WorkerBypassed(h, w);
    }
    if |s.round.arrived| + 1 >= Total(s) {
      HandleOpens(s, MASTER_ID);
    } else {
      HandleWaits(s, MASTER_ID);
    }
  }

  lemma HandleMaster(s: State, from: nat)
    requires Entering(s, from) && MasterOk(s) && !MasterBypassed(s) && from != MASTER_ID
    ensures MasterBypassed(Handle(s, from)) <==> s.master == MEntered && s.masterDone != s.rounds
  {
    if |s.round.arrived| + 1 >= Total(s) {
      HandleOpens(s, from);
      assert MASTER_ID in s.round.arrived;
    } else {
      HandleWaits(s, from);
    }
  }

  /** An entry handled before the barrier is initialized is a lost one. */
  lemma EarlyEntry(s: State, w: nat)
    requires Inv(s) && Enabled(s, Receive(w)) && !s.ready
    ensures WorkerBypassed(Apply(s, Receive(w)), w)
  {
    assert WorkerOk(s.workers[w], w in s.round.arrived, s.rounds);
    var u := Put(s, w, s.workers[w].(up := s.workers[w].up - 1));
    assert u.workers.Keys == s.workers.Keys;
    HandleBypassed(u, w, MASTER_ID);
  }

  /** The entry taken from the channel, the handler not yet run. */
  function Taken(s: State, w: nat): State
    requires Enabled(s, Receive(w))
  {
    Put(s, w, s.workers[w].(up := s.workers[w].up - 1))
  }

  lemma TakenApplied(s: State, w: nat)
    requires Enabled(s, Receive(w))
    ensures Apply(s, Receive(w)) == Handle(Taken(s, w), w)
  {
  }

  lemma TakenOk(s: State, w: nat)
    requires Inv(s) && Enabled(s, Receive(w))
    ensures var u := Taken(s, w);
            && Entering(u, w) && MasterOk(u) && w != MASTER_ID
            && forall v :: v in u.workers ==> WorkerOk(u.workers[v], v in u.round.arrived + [w], u.rounds)
  {
    var u := Taken(s, w);
    assert u.workers.Keys == s.workers.Keys;
    forall v | v in u.workers ensures WorkerOk(u.workers[v], v in u.round.arrived + [w], u.rounds) {
      assert WorkerOk(s.workers[v], v in s.round.arrived, s.rounds);
    }
    assert WorkerOk(s.workers[w], w in s.round.arrived, s.rounds);
  }

  lemma TakenBypass(s: State, w: nat, v: nat)
    requires Enabled(s, Receive(w)) && v != w
    ensures WorkerBypassed(Taken(s, w), v) == WorkerBypassed(s, v)
  {
  }

  lemma ReceiveKeeps(s: State, w: nat)
    requires Inv(s) && NoneBypassed(s) && Enabled(s, Receive(w)) && s.ready
    ensures forall v: nat :: !WorkerBypassed(Handle(Taken(s, w), w), v)
  {
    var u := Taken(s, w);
    TakenOk(s, w);
    forall v: nat | v != w ensures !WorkerBypassed(u, v) {
      TakenBypass(s, w, v);
    }
    HandleKeeps(u, w);
  }

  lemma ReceiveBypass(s: State, w: nat)
    requires Inv(s) && NoneBypassed(s) && Enabled(s, Receive(w)) && s.ready
    ensures NoneBypassed(Apply(s, Receive(w))) <==> !(s.master == MEntered && s.masterDone != s.rounds)
  {
    TakenOk(s, w);
    var t := Handle(Taken(s, w), w);
    TakenApplied(s, w);
    HandleMaster(Taken(s, w), w);
    assert NoneBypassed(t) <==> !MasterBypassed(t) by {
      ReceiveKeeps(s, w);
    }
  }

  lemma ListedLost(s: State, w: nat)
    requires Inv(s) && !s.ready && w in s.round.arrived
    ensures WorkerBypassed(s, w)
  {
    assert w in s.workers && WorkerOk(s.workers[w], true, s.rounds);
  }

  /** With nobody bypassed yet, initialization finds nobody listed. */
  lemma NoneListed(s: State)
    requires Inv(s) && NoneBypassed(s) && !s.ready
    ensures s.round.arrived == []
  {
    if s.round.arrived != [] { ListedLost(s, s.round.arrived[0]); }
  }

  /**
   * The steps that bypass a node: a release delivered before its worker waits,
   * an entry to the next round handled before the master, its own round open,
   * has made its first test, and an entry handled before the master has
   * initialized its barrier.
   */
  predicate Bypasses(s: State, e: Event)
    requires Enabled(s, e)
  {
    || (e.Deliver? && s.workers[e.w].pc == Sent)
    || (e.Receive? && ((s.master == MEntered && s.masterDone != s.rounds) || !s.ready))
  }

  /** These, and no others. */
  lemma BypassingSteps(s: State, e: Event)
    requires Inv(s) && NoneBypassed(s) && Enabled(s, e)
    ensures !NoneBypassed(Apply(s, e)) <==> Bypasses(s, e)
  {
    var t := Apply(s, e);
    match e
    case MasterEnter => MasterEnterBypass(s);
    case Receive(w) =>
      if s.ready {
        ReceiveBypass(s, w);
      } else {
        EarlyEntry(s, w);
      }
    case Deliver(w) =>
      assert WorkerOk(s.workers[w], w in s.round.arrived, s.rounds);
      assert WorkerBypassed(t, w) <==> s.workers[w].pc == Sent;
      forall v | v != w ensures !WorkerBypassed(t, v) { assert !WorkerBypassed(s, v); }
    case SyncInit =>
      NoneListed(s);
      forall w: nat ensures !WorkerBypassed(t, w) { assert !WorkerBypassed(s, w); }
    case _ =>
      forall w: nat ensures !WorkerBypassed(t, w) { assert !WorkerBypassed(s, w); }
  }

  lemma BypassedNext(s: State, e: Event)
    requires Inv(s) && Enabled(s, e)
    ensures NoneBypassed(Apply(s, e)) <==> NoneBypassed(s) && !Bypasses(s, e)
  {
    if NoneBypassed(s) {
      BypassingSteps(s, e);
    } else {
      var n := SomeBypassed(s);
      BypassedStep(s, e, n);
      assert Bypassed(Apply(s, e), n);
    }
  }

  /** None of the first i steps bypasses a node. */
  ghost predicate NoBypass(states: seq<State>, events: seq<Event>, i: nat)
    requires IsRun(states, events) && i < |states|
  {
    forall k :: 0 <= k < i ==> !BypassAt(states, events, k)
  }

  ghost predicate BypassAt(states: seq<State>, events: seq<Event>, k: nat)
    requires IsRun(states, events) && k < |events|
  {
    Bypasses(states[k], events[k])
  }

  lemma NoBypassNext(states: seq<State>, events: seq<Event>, i: nat)
    requires IsRun(states, events) && i < |events|
    ensures NoBypass(states, events, i + 1) <==> NoBypass(states, events, i) && !BypassAt(states, events, i)
  {
    if !NoBypass(states, events, i) {
      var k :| 0 <= k < i && BypassAt(states, events, k);
    } else if !NoBypass(states, events, i + 1) {
      var k :| 0 <= k < i + 1 && BypassAt(states, events, k);
    }
  }

  lemma BypassedRunNext(states: seq<State>, events: seq<Event>, i: nat)
    requires IsRun(states, events) && Init(states[0]) && i < |events|
    ensures NoneBypassed(states[i + 1]) <==> NoneBypassed(states[i]) && !Bypasses(states[i], events[i])
  {
    RunInv(states, events, i);
    BypassedNext(states[i], events[i]);
  }

  /** In every run nobody is bypassed if and only if no such step has been taken. */
  lemma {:induction false} BypassedRun(states: seq<State>, events: seq<Event>, i: nat)
    requires IsRun(states, events) && Init(states[0]) && i < |states|
    ensures NoneBypassed(states[i]) <==> NoBypass(states, events, i)
  {
    if i == 0 {
    } else {
      BypassedRun(states, events, i - 1);
      BypassedRunNext(states, events, i - 1);
      NoBypassNext(states, events, i - 1);
    }
  }

  lemma SomeBypassed(s: State) returns (n: nat)
    requires Inv(s) && !NoneBypassed(s)
    ensures IsNode(s, n) && Bypassed(s, n)
  {
    if MasterBypassed(s) {
      n := MASTER_ID;
    } else {
      n :| WorkerBypassed(s, n);
    }
  }

  /** The master has tested while its own round was open, and waits for that one. */
  predicate Tested(s: State) {
    s.master == MWaiting(s.masterDone % WRAP)
  }

  /** A test made while the round is open remembers that round. */
  lemma TestRemembers(s: State)
    requires Inv(s) && Enabled(s, MasterTest) && s.masterDone == s.rounds
    ensures Tested(Apply(s, MasterTest)) && Apply(s, MasterTest).masterDone == s.masterDone
  {
    assert s.round.arrived == [] ==> MASTER_ID !in s.round.arrived;
  }

  lemma TestedSafe(s: State)
    requires Inv(s) && Tested(s)
    ensures !MasterBypassed(s)
  {
    NextId(s.masterDone);
  }

  lemma TestedStep(s: State, e: Event)
    requires Inv(s) && Tested(s) && Enabled(s, e)
    ensures if Apply(s, e).masterDone == s.masterDone then Tested(Apply(s, e)) else Apply(s, e).master == MOutside
  {
  }

  /** From then on nothing can bypass the master in this call. */
  lemma {:induction false} TestedRun(states: seq<State>, events: seq<Event>, i: nat, j: nat)
    requires IsRun(states, events) && Init(states[0]) && i <= j < |states| && Tested(states[i])
    ensures states[j].masterDone == states[i].masterDone ==> Tested(states[j]) && !MasterBypassed(states[j])
    ensures states[j].masterDone >= states[i].masterDone
    decreases j
  {
    RunInv(states, events, j);
    if i == j {
      TestedSafe(states[j]);
    } else {
      TestedRun(states, events, i, j - 1);
      RunInv(states, events, j - 1);
      assert Enabled(states[j - 1], events[j - 1]);
      DoneGrows(states[j - 1], events[j - 1]);
      if states[j].masterDone == states[i].masterDone {
        TestedStep(states[j - 1], events[j - 1]);
        TestedSafe(states[j]);
      }
    }
  }

  lemma DoneGrows(s: State, e: Event)
    requires Enabled(s, e)
    ensures Apply(s, e).masterDone >= s.masterDone
  {
  }

  // ---------------------------------------------------------------------
  // When a further round can complete
  // ---------------------------------------------------------------------

  /** What is still to be done by a worker before it is listed and waiting. */
  function Weight(k: Worker, rounds: nat): nat {
    match k.pc
    case Outside => 4
    case Sent => if k.done != rounds then 6 else 1 + 2 * k.up
    case InWait => if k.done != rounds then 5 else 2 * k.up
  }

  function WeightBelow(s: State, bound: nat): nat {
    if bound == 0 then 0
    else WeightBelow(s, bound - 1)
         + (if bound - 1 in s.workers then Weight(s.workers[bound - 1], s.rounds) else 0)
  }

  function MasterWeight(s: State): nat {
    if s.master == MOutside then 1 else if s.masterDone != s.rounds then 2 else 0
  }

  lemma {:induction false} WeightPut(s: State, w: nat, k: Worker, bound: nat)
    requires w in s.workers
    ensures WeightBelow(Put(s, w, k), bound)
            == WeightBelow(s, bound)
               + (if w < bound then Weight(k, s.rounds) - Weight(s.workers[w], s.rounds) else 0)
  {
    if bound == 0 {
    } else {
      WeightPut(s, w, k, bound - 1);
    }
  }

  lemma {:induction false} WeightSame(s: State, t: State, bound: nat)
    requires s.workers == t.workers && s.rounds == t.rounds
    ensures WeightBelow(s, bound) == WeightBelow(t, bound)
  {
    if bound == 0 {
    } else {
      WeightSame(s, t, bound - 1);
    }
  }

  /** All that is still to be done before the round is complete. */
  function Measure(s: State, bound: nat): nat {
    WeightBelow(s, bound) + MasterWeight(s) + One(!s.ready)
  }

  /** The master wakes up and finds it must go on waiting. */
  predicate Idle(s: State, e: Event) {
    e.MasterTest? && MasterMustWait(s)
  }

  /** A step towards the next completed round that bypasses nobody. */
  ghost predicate Advances(s: State, e: Event, bound: nat) {
    && Enabled(s, e)
    && var t := Apply(s, e);
    && NoneBypassed(t)
    && (t.rounds > s.rounds || Measure(t, bound) < Measure(s, bound))
  }

  ghost predicate Going(s: State, e: Event, bound: nat) {
    && Inv(s) && NoneBypassed(s) && (forall w :: w in s.workers ==> w < bound)
    && Enabled(s, e) && !Bypasses(s, e) && !Idle(s, e)
  }

  lemma WorkerAdvances(s: State, e: Event, bound: nat)
    requires Going(s, e, bound) && (e.WorkerSend? || e.WorkerWait? || e.Deliver?)
    ensures Advances(s, e, bound)
  {
    BypassingSteps(s, e);
    assert WorkerOk(s.workers[e.w], e.w in s.round.arrived, s.rounds) && !WorkerBypassed(s, e.w);
    WeightPut(s, e.w, Apply(s, e).workers[e.w], bound);
  }

  lemma MasterAdvances(s: State, e: Event, bound: nat)
    requires Going(s, e, bound) && (e.MasterTest? || e.MasterEnter? || e.SyncInit?)
    ensures Advances(s, e, bound)
  {
    BypassingSteps(s, e);
    if e == MasterEnter && |s.round.arrived| + 1 < Total(s) {
      HandleWaits(s, MASTER_ID);
    }
    if e == MasterTest { TestLeaves(s); }
    if Apply(s, e).rounds == s.rounds { WeightSame(s, Apply(s, e), bound); }
  }

  /** A test that lets the master out finds its round complete. */
  lemma TestLeaves(s: State)
    requires Inv(s) && s.master != MOutside && !MasterMustWait(s)
    ensures s.masterDone != s.rounds
  {
    if s.round.arrived == [] { assert MASTER_ID !in s.round.arrived; }
  }

  lemma ReceiveAdvances(s: State, w: nat, bound: nat)
    requires Going(s, Receive(w), bound)
    ensures Advances(s, Receive(w), bound)
  {
    BypassingSteps(s, Receive(w));
    assert WorkerOk(s.workers[w], w in s.round.arrived, s.rounds);
    var k := s.workers[w].(up := s.workers[w].up - 1);
    var u := Put(s, w, k);
    assert u.workers.Keys == s.workers.Keys;
    WeightPut(s, w, k, bound);
    if |s.round.arrived| + 1 < Total(s) {
      HandleWaits(u, w);
      WeightSame(u, Apply(s, Receive(w)), bound);
    } else {
      HandleOpens(u, w);
    }
  }

  /** Every step that bypasses nobody and is not an idle test brings the round nearer. */
  lemma StepAdvances(s: State, e: Event, bound: nat)
    requires Going(s, e, bound)
    ensures Advances(s, e, bound)
  {
    match e
    case Receive(w) => ReceiveAdvances(s, w, bound);
    case WorkerSend(_) => WorkerAdvances(s, e, bound);
    case WorkerWait(_) => WorkerAdvances(s, e, bound);
    case Deliver(_) => WorkerAdvances(s, e, bound);
    case _ => MasterAdvances(s, e, bound);
  }

  /** And an idle test changes nothing of it. */
  lemma IdleSame(s: State, e: Event, bound: nat)
    requires Inv(s) && NoneBypassed(s) && Enabled(s, e) && Idle(s, e)
    ensures NoneBypassed(Apply(s, e)) && Apply(s, e).rounds == s.rounds && Measure(Apply(s, e), bound) == Measure(s, bound)
  {
    BypassingSteps(s, e);
    WeightSame(s, Apply(s, e), bound);
  }

  /** While nobody is bypassed there is always such a step to take. */
  lemma CanAdvance(s: State, bound: nat) returns (e: Event)
    requires Inv(s) && NoneBypassed(s) && forall w :: w in s.workers ==> w < bound
    ensures Advances(s, e, bound)
  {
    if w :| w in s.workers && (s.workers[w].pc != InWait || s.workers[w].down > 0) {
      e := if s.workers[w].pc == Sent then WorkerWait(w)
           else if s.workers[w].pc == Outside then WorkerSend(w) else Deliver(w);
    } else if !s.ready {
      e := SyncInit;
    } else if s.master == MOutside {
      e := MasterEnter;
    } else if s.masterDone != s.rounds {
      e := MasterTest;
    } else {
      EntryInFlight(s);
      var w :| w in s.workers && s.workers[w].up > 0;
      e := Receive(w);
    }
    StepAdvances(s, e, bound);
  }

  /** How many of the first i steps are not idle tests. */
  function Work(states: seq<State>, events: seq<Event>, i: nat): nat
    requires |states| == |events| + 1 && i <= |events|
  {
    if i == 0 then 0 else Work(states, events, i - 1) + One(!Idle(states[i - 1], events[i - 1]))
  }

  /** Nobody is bypassed, and if no round was completed since there were r, at
      most m is still to be done. */
  ghost predicate OnTheWay(s: State, r: nat, bound: nat, m: int) {
    NoneBypassed(s) && r <= s.rounds && (s.rounds == r ==> Measure(s, bound) <= m)
  }

  lemma OnTheWayStep(s: State, e: Event, r: nat, bound: nat, m: int)
    requires Inv(s) && (forall w :: w in s.workers ==> w < bound)
    requires OnTheWay(s, r, bound, m) && Enabled(s, e) && !Bypasses(s, e)
    ensures OnTheWay(Apply(s, e), r, bound, m - One(!Idle(s, e)))
  {
    StepKeeps(s, e);
    if Idle(s, e) {
      IdleSame(s, e, bound);
    } else {
      StepAdvances(s, e, bound);
    }
  }

  lemma {:induction false} InvFrom(states: seq<State>, events: seq<Event>, i: nat)
    requires IsRun(states, events) && Inv(states[0]) && i < |states|
    ensures Inv(states[i]) && states[i].workers.Keys == states[0].workers.Keys
  {
    if i == 0 {
    } else {
      InvFrom(states, events, i - 1);
      assert Enabled(states[i - 1], events[i - 1]);
      StepInv(states[i - 1], events[i - 1]);
      StepKeeps(states[i - 1], events[i - 1]);
    }
  }

  lemma OnTheWayNext(states: seq<State>, events: seq<Event>, i: nat, r: nat, bound: nat, m: int)
    requires IsRun(states, events) && Inv(states[0]) && i < |events| && !Bypasses(states[i], events[i])
    requires (forall w :: w in states[0].workers ==> w < bound) && OnTheWay(states[i], r, bound, m)
    ensures OnTheWay(states[i + 1], r, bound, m - One(!Idle(states[i], events[i])))
  {
    InvFrom(states, events, i);
    OnTheWayStep(states[i], events[i], r, bound, m);
  }

  lemma {:induction false} OnTheWayRun(states: seq<State>, events: seq<Event>, i: nat, r: nat, bound: nat, m: int)
    requires IsRun(states, events) && Inv(states[0]) && i < |states| && NoBypass(states, events, i)
    requires (forall w :: w in states[0].workers ==> w < bound) && OnTheWay(states[0], r, bound, m)
    ensures OnTheWay(states[i], r, bound, m - Work(states, events, i))
  {
    if i == 0 {
    } else {
      NoBypassNext(states, events, i - 1);
      OnTheWayRun(states, events, i - 1, r, bound, m);
      OnTheWayNext(states, events, i - 1, r, bound, m - Work(states, events, i - 1));
    }
  }

  lemma Arrived(s: State, r: nat, bound: nat, m: int)
    requires OnTheWay(s, r, bound, m) && m < 0
    ensures s.rounds > r
  {
  }

  function Workers(s: State, bound: nat): set<nat> {
    set w | w in s.workers && w < bound
  }

  lemma {:induction false} WeightBound(s: State, bound: nat)
    requires forall w :: w in s.workers ==> s.workers[w].up <= 1
    ensures WeightBelow(s, bound) <= 6 * |Workers(s, bound)|
  {
    if bound == 0 {
    } else {
      WeightBound(s, bound - 1);
      var n := bound - 1;
      if n in s.workers {
        assert Workers(s, bound) == Workers(s, n) + {n};
      } else {
        assert Workers(s, bound) == Workers(s, n);
      }
    }
  }

  lemma MeasureBound(s: State, bound: nat)
    requires Inv(s) && forall w :: w in s.workers ==> w < bound
    ensures Measure(s, bound) <= 381
  {
    forall w | w in s.workers ensures s.workers[w].up <= 1 {
      assert WorkerOk(s.workers[w], w in s.round.arrived, s.rounds);
    }
    WeightBound(s, bound);
    assert Workers(s, bound) == s.workers.Keys;
  }

  /**
   * Progress over every run: from a state where nobody is bypassed, and while
   * no step bypasses anybody, a round is complete after more than 381 steps
   * other than wake-ups of the master in vain, whatever order they come in.
   */
  lemma RoundInEveryRun(states: seq<State>, events: seq<Event>)
    requires IsRun(states, events) && Inv(states[0]) && NoneBypassed(states[0])
    requires NoBypass(states, events, |events|) && Work(states, events, |events|) > 381
    ensures states[|events|].rounds > states[0].rounds
  {
    var bound := BoundExists(states[0]);
    MeasureBound(states[0], bound);
    OnTheWayRun(states, events, |events|, states[0].rounds, bound, 381);
    Arrived(states[|events|], states[0].rounds, bound, 381 - Work(states, events, |events|));
  }

  /** With every node inside, an entry is in flight: the list is never full. */
  lemma EntryInFlight(s: State)
    requires Inv(s) && NoneBypassed(s)
    requires forall w :: w in s.workers ==> s.workers[w].pc == InWait && s.workers[w].down == 0
    requires s.master != MOutside && s.masterDone == s.rounds
    ensures exists w :: w in s.workers && s.workers[w].up > 0
  {
    if forall w :: w in s.workers ==> s.workers[w].up == 0 {
      var nodes := s.workers.Keys + {MASTER_ID};
      forall n | n in nodes ensures n in s.round.arrived {
        if n != MASTER_ID {
          assert WorkerOk(s.workers[n], n in s.round.arrived, s.rounds) && !WorkerBypassed(s, n);
        }
      }
      assert |nodes| == |s.workers.Keys| + 1;
      SetFits(nodes, s.round.arrived);
    }
  }

  ghost predicate Leads(s: State, t: State) {
    exists states, events :: IsRun(states, events) && states[0] == s && states[|events|] == t
  }

  lemma RunCons(s: State, e: Event, states: seq<State>, events: seq<Event>)
    requires Enabled(s, e) && IsRun(states, events) && states[0] == Apply(s, e)
    ensures IsRun([s] + states, [e] + events)
  {
    var all, steps := [s] + states, [e] + events;
    forall i | 0 <= i < |steps| ensures Enabled(all[i], steps[i]) && all[i + 1] == Apply(all[i], steps[i]) {
      if i == 0 {
      } else {
        assert all[i] == states[i - 1] && all[i + 1] == states[i] && steps[i] == events[i - 1];
      }
    }
  }

  lemma LeadsBy(s: State, e: Event, t: State)
    requires Enabled(s, e) && Leads(Apply(s, e), t)
    ensures Leads(s, t)
  {
    var states, events :| IsRun(states, events) && states[0] == Apply(s, e) && states[|events|] == t;
    RunCons(s, e, states, events);
    var all, steps := [s] + states, [e] + events;
    assert all[0] == s && all[|steps|] == t;
  }

  lemma {:induction false} Completes(s: State, bound: nat) returns (t: State)
    requires Inv(s) && NoneBypassed(s) && forall w :: w in s.workers ==> w < bound
    ensures Leads(s, t) && t.rounds > s.rounds
    decreases Measure(s, bound)
  {
    var e := CanAdvance(s, bound);
    var next := Apply(s, e);
    if next.rounds > s.rounds {
      t := next;
      assert IsRun([t], []);
    } else {
      StepInv(s, e);
      StepKeeps(s, e);
      t := Completes(next, bound);
    }
    LeadsBy(s, e, t);
  }

  lemma StepKeeps(s: State, e: Event)
    requires Enabled(s, e)
    ensures Apply(s, e).workers.Keys == s.workers.Keys && Apply(s, e).rounds >= s.rounds
  {
  }

  lemma BoundExists(s: State) returns (bound: nat)
    ensures forall w :: w in s.workers ==> w < bound
  {
    bound := MaxOf(s.workers.Keys);
  }

  lemma {:induction false} MaxOf(a: set<nat>) returns (bound: nat)
    ensures forall w :: w in a ==> w < bound
  {
    bound := 0;
    if x :| x in a {
      bound := MaxOf(a - {x});
      if bound <= x { bound := x + 1; }
      assert forall w :: w in a ==> w == x || w in a - {x};
    }
  }

  /**
   * From a reachable state some continuation completes a further round if and
   * only if no node has been bypassed.
   */
  lemma NextRoundPossible(s: State)
    requires Inv(s)
    ensures NoneBypassed(s) <==> exists t :: Leads(s, t) && t.rounds > s.rounds
  {
    if NoneBypassed(s) {
      var bound := BoundExists(s);
      var t := Completes(s, bound);
    } else {
      var n := SomeBypassed(s);
      forall t | Leads(s, t) ensures t.rounds == s.rounds {
        var states, events :| IsRun(states, events) && states[0] == s && states[|events|] == t;
        BypassedForever(states, events, |events|, n);
      }
    }
  }

  // ---------------------------------------------------------------------
  // Both losses are real
  // ---------------------------------------------------------------------

  /** The master and worker 2, with some nodes listed and some rounds done. */
  function Duo(arrived: seq<nat>, rounds: nat, master: MasterPc, entered: nat, k: Worker): State {
    State(Round(rounds % WRAP, arrived), rounds, master, entered, 0, map[2 := k], true)
  }

  lemma DuoStep(s: State, e: Event, t: State, end: State)
    requires s.workers.Keys == {2} == t.workers.Keys && Enabled(s, e)
    requires Apply(s, e).(workers := map[]) == t.(workers := map[])
    requires Apply(s, e).workers.Keys == {2} && Apply(s, e).workers[2] == t.workers[2]
    requires Leads(t, end)
    ensures Leads(s, end)
  {
    assert Apply(s, e).workers == t.workers;
    LeadsBy(s, e, end);
  }

  /** The handler with the first of the two to come, and with the second. */
  lemma DuoHandle(s: State, from: nat)
    requires s.workers.Keys == {2} && s.round.id == s.rounds % WRAP && (from == MASTER_ID || from == 2)
    requires s.round.arrived == [] || (|s.round.arrived| == 1 && s.round.arrived[0] == 3 - from)
    ensures Handle(s, from).workers.Keys == {2}
    ensures s.round.arrived == [] ==> Handle(s, from) == s.(round := Round(s.round.id, [from]))
    ensures s.round.arrived != [] ==>
              && Handle(s, from).(workers := map[])
                 == s.(round := Round((s.rounds + 1) % WRAP, []), rounds := s.rounds + 1, workers := map[])
              && Handle(s, from).workers[2] == s.workers[2].(down := s.workers[2].down + 1)
  {
    assert |s.workers.Keys| == 1;
    if s.round.arrived == [] {
      HandleWaits(s, from);
    } else {
      HandleOpens(s, from);
    }
  }

  /** The state after the first or the second of the two has entered a round. */
  function Listed(arrived: seq<nat>, rounds: nat, master: MasterPc, entered: nat, k: Worker, from: nat): State {
    if arrived == [] then Duo([from], rounds, master, entered, k)
    else Duo([], rounds + 1, master, entered, k.(down := k.down + 1))
  }

  lemma DuoListed(arrived: seq<nat>, rounds: nat, master: MasterPc, entered: nat, k: Worker, from: nat)
    requires (from == MASTER_ID || from == 2) && (arrived == [] || arrived == [3 - from])
    ensures Handle(Duo(arrived, rounds, master, entered, k), from) == Listed(arrived, rounds, master, entered, k, from)
  {
    var s, t := Duo(arrived, rounds, master, entered, k), Listed(arrived, rounds, master, entered, k, from);
    DuoHandle(s, from);
    assert Handle(s, from).workers == t.workers;
  }

  lemma MasterLeg(arrived: seq<nat>, rounds: nat, k: Worker, end: State)
    requires arrived == [] || arrived == [2]
    requires Leads(Listed(arrived, rounds, MEntered, 1, k, MASTER_ID), end)
    ensures Leads(Duo(arrived, rounds, MOutside, 0, k), end)
  {
    DuoListed(arrived, rounds, MOutside, 0, k, MASTER_ID);
    LeadsBy(Duo(arrived, rounds, MOutside, 0, k), MasterEnter, end);
  }

  lemma DuoReceive(arrived: seq<nat>, rounds: nat, master: MasterPc, entered: nat, k: Worker)
    requires k.up > 0
    ensures Apply(Duo(arrived, rounds, master, entered, k), Receive(2))
            == Handle(Duo(arrived, rounds, master, entered, k.(up := k.up - 1)), 2)
  {
    var s, taken := Duo(arrived, rounds, master, entered, k), k.(up := k.up - 1);
    assert Put(s, 2, taken).workers == map[2 := taken];
    assert Put(s, 2, taken) == Duo(arrived, rounds, master, entered, taken);
  }

  lemma WorkerLeg(arrived: seq<nat>, rounds: nat, master: MasterPc, entered: nat, k: Worker, end: State)
    requires k.up > 0 && (arrived == [] || arrived == [MASTER_ID])
    requires Leads(Listed(arrived, rounds, master, entered, k.(up := k.up - 1), 2), end)
    ensures Leads(Duo(arrived, rounds, master, entered, k), end)
  {
    DuoReceive(arrived, rounds, master, entered, k);
    DuoListed(arrived, rounds, master, entered, k.(up := k.up - 1), 2);
    LeadsBy(Duo(arrived, rounds, master, entered, k), Receive(2), end);
  }

  const FRESH := Worker(Outside, 0, 0, 0, 0)

  lemma FirstCall(arrived: seq<nat>, master: MasterPc, entered: nat, end: State)
    requires Leads(Duo(arrived, 0, master, entered, Worker(Sent, 1, 0, 1, 0)), end)
    ensures Leads(Duo(arrived, 0, master, entered, FRESH), end)
  {
    DuoStep(Duo(arrived, 0, master, entered, FRESH), WorkerSend(2),
            Duo(arrived, 0, master, entered, Worker(Sent, 1, 0, 1, 0)), end);
  }

  lemma LeadsSelf(s: State)
    ensures Leads(s, s)
  {
    assert IsRun([s], []) && [s][0] == s;
  }

  function Start(): State {
    Duo([], 0, MOutside, 0, FRESH).(ready := false)
  }

  lemma Initialized(end: State)
    requires Leads(Duo([], 0, MOutside, 0, FRESH), end)
    ensures Leads(Start(), end)
  {
    assert Apply(Start(), SyncInit) == Duo([], 0, MOutside, 0, FRESH);
    LeadsBy(Start(), SyncInit, end);
  }

  /**
   * A release delivered before the worker waits for it: from the initial state
   * to one where worker 2 is inside for good.
   */
  lemma EarlyRelease() returns (end: State)
    ensures Init(Start()) && Leads(Start(), end)
    ensures IsNode(end, 2) && Bypassed(end, 2) && end.rounds == 1
  {
    end := Duo([], 1, MEntered, 1, Worker(Sent, 0, 0, 1, 0));
    LeadsSelf(end);
    DuoStep(Duo([], 1, MEntered, 1, Worker(Sent, 0, 1, 1, 0)), Deliver(2), end, end);
    MasterLeg([2], 0, Worker(Sent, 0, 0, 1, 0), end);
    WorkerLeg([], 0, MOutside, 0, Worker(Sent, 1, 0, 1, 0), end);
    FirstCall([], MOutside, 0, end);
    Initialized(end);
  }

  /** From the open round to the worker's next call, the master not having tested. */
  lemma Reentry(end: State)
    requires Leads(Duo([], 1, MEntered, 1, Worker(Sent, 1, 0, 2, 1)), end)
    ensures Leads(Duo([], 1, MEntered, 1, Worker(Sent, 0, 1, 1, 0)), end)
  {
    var out := Duo([], 1, MEntered, 1, Worker(Outside, 0, 0, 1, 1));
    DuoStep(out, WorkerSend(2), Duo([], 1, MEntered, 1, Worker(Sent, 1, 0, 2, 1)), end);
    var waiting := Duo([], 1, MEntered, 1, Worker(InWait, 0, 1, 1, 0));
    DuoStep(waiting, Deliver(2), out, end);
    DuoStep(Duo([], 1, MEntered, 1, Worker(Sent, 0, 1, 1, 0)), WorkerWait(2), waiting, end);
  }

  /**
   * A worker back at the barrier before the master has tested: from the
   * initial state to one where the master waits for the wrong round for good.
   */
  lemma EarlyReentry() returns (end: State)
    ensures Init(Start()) && Leads(Start(), end)
    ensures IsNode(end, MASTER_ID) && Bypassed(end, MASTER_ID) && end.rounds == 1
  {
    end := Duo([2], 1, MEntered, 1, Worker(Sent, 0, 0, 2, 1));
    LeadsSelf(end);
    WorkerLeg([], 1, MEntered, 1, Worker(Sent, 1, 0, 2, 1), end);
    Reentry(end);
    WorkerLeg([MASTER_ID], 0, MEntered, 1, Worker(Sent, 1, 0, 1, 0), end);
    FirstCall([MASTER_ID], MEntered, 1, end);
    MasterLeg([], 0, FRESH, end);
    Initialized(end);
  }

  /**
   * An entry handled before the master has initialized its barrier: from the
   * initial state to one where worker 2 is inside for good.
   */
  lemma EntryBeforeInit() returns (end: State)
    ensures Init(Start()) && Leads(Start(), end)
    ensures end.ready && IsNode(end, 2) && Bypassed(end, 2) && end.rounds == 0 && end.round.arrived == []
  {
    var entered := Worker(Sent, 0, 0, 1, 0);
    end := Duo([], 0, MOutside, 0, entered);
    LeadsSelf(end);
    var listed := Duo([2], 0, MOutside, 0, entered).(ready := false);
    assert Apply(listed, SyncInit) == end;
    LeadsBy(listed, SyncInit, end);
    var calling := Duo([], 0, MOutside, 0, Worker(Sent, 1, 0, 1, 0)).(ready := false);
    var taken := Duo([], 0, MOutside, 0, entered).(ready := false);
    assert Put(calling, 2, entered) == taken by { assert calling.workers[2 := entered] == taken.workers; }
    DuoHandle(taken, 2);
    assert Apply(calling, Receive(2)) == listed;
    LeadsBy(calling, Receive(2), end);
    assert Apply(Start(), WorkerSend(2)) == calling by {
      assert Start().workers[2 := Worker(Sent, 1, 0, 1, 0)] == calling.workers;
    }
    LeadsBy(Start(), WorkerSend(2), end);
  }
}
