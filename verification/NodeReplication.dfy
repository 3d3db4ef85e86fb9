/**
 * The master's node table and the workers' copies of it, while nodes only
 * join.  A table message may reach a worker late, more than once or out of
 * order: a node that joins again has two sockets.
 */
module NodeReplication {
  import opened Common
  import opened NodeTable

  /** What identifies a node and never changes once it is in the table. */
  datatype Key = Key(id: uint32, ip: Ip, port: uint16, chunks: uint32, role: uint32)

  function KeyOf(n: Node): Key {
    Key(n.id, n.ip, n.port, n.chunks, n.role)
  }

  function Keys(t: seq<Node>): (k: seq<Key>)
    ensures |k| == |t|
  {
    seq(|t|, i requires 0 <= i < |t| => KeyOf(t[i]))
  }

  function InfoKeys(infos: seq<Info>): (k: seq<Key>)
    ensures |k| == |infos|
  {
    seq(|infos|, i requires 0 <= i < |infos| => InfoKey(infos[i]))
  }

  /** `log` holds the broadcasts made so far. */
  datatype State = State(master: seq<Node>, log: seq<seq<Info>>, workers: map<nat, seq<Node>>)

  datatype Event =
    | Join(ip: Ip, port: uint16, chunks: uint32, fd: nat, now: int)
    | Deliver(w: nat, message: nat, now: int)

  /** The master has added itself; nobody else is there. */
  predicate Init(s: State) {
    && |s.master| == 1 && s.master[0].id == 1 && s.log == []
    && forall w :: w in s.workers ==> s.workers[w] == []
  }

  predicate Enabled(s: State, e: Event) {
    match e
    case Join(_, _, _, _, _) => |s.master| <= MAX_NODES
    case Deliver(w, m, _) => w in s.workers && m < |s.log|
  }

  /** A discovery is answered by an id, if there is room, and a new broadcast. */
  function Apply(s: State, e: Event): State
    requires Enabled(s, e)
  {
    match e
    case Join(ip, port, chunks, fd, now) =>
      var (t, id) := OnAdd(s.master, ip, port, chunks, ROLE_WORKER, fd, now);
      if id > 0 then s.(master := t, log := s.log + [Infos(t)]) else s.(master := t)
    case Deliver(w, m, now) =>
      s.(workers := s.workers[w := Merge(s.workers[w], s.log[m], now)])
  }

  ghost predicate IsRun(states: seq<State>, events: seq<Event>) {
    && |states| == |events| + 1
    && (forall i {:trigger events[i]} :: 0 <= i < |events| ==>
          Enabled(states[i], events[i]) && states[i + 1] == Apply(states[i], events[i]))
  }

  /** Ids are 1, 2, 3, ... by position. */
  predicate Numbered(keys: seq<Key>) {
    forall k :: 0 <= k < |keys| ==> keys[k].id == k + 1
  }

  ghost predicate Inv(s: State) {
    && |s.master| <= MAX_NODES && Numbered(Keys(s.master))
    && (forall m :: 0 <= m < |s.log| ==> InfoKeys(s.log[m]) <= Keys(s.master))
    && (s.log != [] ==> InfoKeys(s.log[|s.log| - 1]) == Keys(s.master))
    && (forall w :: w in s.workers ==> Keys(s.workers[w]) <= Keys(s.master))
  }

  function InfoKey(i: Info): Key {
    Key(i.id, i.ip, i.port, i.chunks, i.role)
  }

  lemma MergeOneKey(all: seq<Key>, p: seq<Node>, info: Info, n: nat, now: int)
    requires Numbered(all) && |all| <= MAX_NODES && Keys(p) <= all
    requires n < |all| && InfoKey(info) == all[n] && n <= |p|
    ensures Keys(MergeOne(p, info, now)) == all[..if n < |p| then |p| else n + 1]
  {
    forall k | 0 <= k < |p| ensures p[k].id == k + 1 {
      assert Keys(p)[k] == all[k];
    }
    if n < |p| {
      assert p[n].id == info.id;
    }
    assert IndexOfId(p, info.id) == n;
  }

  /** Of two prefixes of one numbered table, merging leaves the longer. */
  lemma {:induction false} MergePrefixes(all: seq<Key>, t: seq<Node>, infos: seq<Info>, now: int)
    requires Numbered(all) && |all| <= MAX_NODES && Keys(t) <= all && InfoKeys(infos) <= all
    ensures Keys(Merge(t, infos, now)) == all[..if |t| >= |infos| then |t| else |infos|]
  {
    if infos == [] {
    } else {
      var n := |infos| - 1;
      assert InfoKeys(infos[..n]) == InfoKeys(infos)[..n];
      MergePrefixes(all, t, infos[..n], now);
      var p := Merge(t, infos[..n], now);
      assert |p| == |Keys(p)|;
      assert InfoKeys(infos)[n] == all[n];
      MergeOneKey(all, p, infos[n], n, now);
    }
  }

  /** Joining appends the next number, or changes no key at all. */
  lemma JoinKeys(t: seq<Node>, ip: Ip, port: uint16, chunks: uint32, fd: nat, now: int)
    requires |t| <= MAX_NODES && Numbered(Keys(t))
    ensures var (u, id) := OnAdd(t, ip, port, chunks, ROLE_WORKER, fd, now);
            var i := IndexOfAddress(t, ip, port);
            && |u| <= MAX_NODES && Numbered(Keys(u)) && Keys(t) <= Keys(u)
            && (i < |t| ==> Keys(u) == Keys(t) && id == t[i].id)
            && (i == |t| < MAX_NODES ==>
                  Keys(u) == Keys(t) + [Key(|t| + 1, ip, port, chunks, ROLE_WORKER)] && id == |t| + 1)
            && (id <= 0 ==> Keys(u) == Keys(t))
  {
    var i := IndexOfAddress(t, ip, port);
    var (u, id) := OnAdd(t, ip, port, chunks, ROLE_WORKER, fd, now);
    if i < |t| {
      assert Keys(t)[i].id == i + 1;
      assert Keys(u) == Keys(t);
    } else if |t| < MAX_NODES {
      assert Keys(u) == Keys(t) + [KeyOf(u[|t|])];
    }
  }

  lemma KeysOfInfos(t: seq<Node>)
    ensures InfoKeys(Infos(t)) == Keys(t)
  {
    assert |Infos(t)| == |t|;
  }

  lemma StepInv(s: State, e: Event)
    requires Inv(s) && Enabled(s, e)
    ensures Inv(Apply(s, e)) && Keys(s.master) <= Keys(Apply(s, e).master)
  {
    match e
    case Join(ip, port, chunks, fd, now) =>
      JoinKeys(s.master, ip, port, chunks, fd, now);
      KeysOfInfos(Apply(s, e).master);
    case Deliver(w, m, now) =>
      MergePrefixes(Keys(s.master), s.workers[w], s.log[m], now);
  }

  /** A join is broadcast exactly if the sender is in the table after it, known or
      new; a full table answers nobody new and sends nothing. */
  lemma JoinBroadcasts(s: State, e: Event)
    requires Inv(s) && Enabled(s, e) && e.Join?
    ensures var t := Apply(s, e);
            && t.workers == s.workers
            && (exists id :: Added(s.master, t.master, e.ip, e.port, e.chunks, ROLE_WORKER, e.fd, e.now, id))
            && t.log == s.log + (if IndexOfAddress(t.master, e.ip, e.port) < |t.master| then [Infos(t.master)] else [])
  {
    var i := IndexOfAddress(s.master, e.ip, e.port);
    AddMeans(s.master, e.ip, e.port, e.chunks, ROLE_WORKER, e.fd, e.now);
    if i < |s.master| { assert Keys(s.master)[i].id == i + 1; }
    var t := Apply(s, e).master;
    if |t| > |s.master| { assert t[|s.master|].ip == e.ip && t[|s.master|].port == e.port; }
  }

  lemma {:induction false} RunInv(states: seq<State>, events: seq<Event>, i: nat)
    requires IsRun(states, events) && Init(states[0]) && i < |states|
    ensures Inv(states[i])
  {
    if i == 0 {
    } else {
      RunInv(states, events, i - 1);
      assert Enabled(states[i - 1], events[i - 1]);
      StepInv(states[i - 1], events[i - 1]);
    }
  }

  /**
   * In every state of every run the master's ids are 1..count by position and
   * every worker's table, but for connection state, is a prefix of its own;
   * and a node once there is there for good under the same id.
   */
  lemma {:induction false} PrefixReplica(states: seq<State>, events: seq<Event>, i: nat, j: nat, w: nat)
    requires IsRun(states, events) && Init(states[0]) && i <= j < |states| && w in states[j].workers
    ensures Numbered(Keys(states[j].master)) && Keys(states[j].workers[w]) <= Keys(states[j].master)
    ensures Keys(states[i].master) <= Keys(states[j].master)
    decreases j
  {
    RunInv(states, events, j);
    if i == j {
    } else {
      assert Enabled(states[j - 1], events[j - 1]);
      PrefixReplica(states, events, i, j - 1, w);
      RunInv(states, events, j - 1);
      StepInv(states[j - 1], events[j - 1]);
    }
  }

  /**
   * Convergence: once a worker has had the last broadcast its table is the
   * master's, and so it stays under any further deliveries.
   */
  lemma {:induction false} Convergence(states: seq<State>, events: seq<Event>, i: nat, j: nat, w: nat)
    requires IsRun(states, events) && Init(states[0]) && i < j < |states|
    requires w in states[i].workers && events[i].Deliver? && events[i].w == w
    requires events[i].message == |states[i].log| - 1
    requires forall k :: i < k < j ==> events[k].Deliver?
    ensures w in states[j].workers && Keys(states[j].workers[w]) == Keys(states[j].master) == Keys(states[i].master)
    decreases j
  {
    var s, e := states[j - 1], events[j - 1];
    assert Enabled(s, e) && states[j] == Apply(s, e);
    RunInv(states, events, j - 1);
    if i + 1 < j {
      assert events[j - 1].Deliver?;
      Convergence(states, events, i, j - 1, w);
    }
    MergePrefixes(Keys(s.master), s.workers[e.w], s.log[e.message], e.now);
  }

  // ---------------------------------------------------------------------
  // Where ids stop being unique
  // ---------------------------------------------------------------------

  /** A worker joins, or a node leaves. */
  datatype Membership = Joined(ip: Ip, port: uint16, chunks: uint32, fd: int, now: int) | Left(id: uint32)

  function Changed(t: seq<Node>, m: Membership): (u: seq<Node>)
    requires |t| <= MAX_NODES
    ensures |u| <= MAX_NODES
  {
    match m
    case Joined(ip, port, chunks, fd, now) => OnAdd(t, ip, port, chunks, ROLE_WORKER, fd, now).0
    case Left(id) => OnRemove(t, id).0
  }

  function Members(t: seq<Node>, run: seq<Membership>): (u: seq<Node>)
    requires |t| <= MAX_NODES
    ensures |u| <= MAX_NODES
  {
    if run == [] then t else Changed(Members(t, run[..|run| - 1]), run[|run| - 1])
  }

  /** A join adds as the table does, a departure removes as it does. */
  lemma ChangedMeans(t: seq<Node>, m: Membership, id: int)
    requires |t| <= MAX_NODES
    requires m.Joined? ==> id == OnAdd(t, m.ip, m.port, m.chunks, ROLE_WORKER, m.fd, m.now).1
    ensures m.Joined? ==> Added(t, Changed(t, m), m.ip, m.port, m.chunks, ROLE_WORKER, m.fd, m.now, id)
    ensures m.Left? ==> Removed(t, Changed(t, m), m.id, if IndexOfId(t, m.id) < |t| then 0 else -1)
  {
    match m
    case Joined(ip, port, chunks, fd, now) => AddMeans(t, ip, port, chunks, ROLE_WORKER, fd, now);
    case Left(gone) => RemoveMeans(t, gone);
  }

  /** A new address joins while the table has room and holds the next id already. */
  ghost predicate Clashes(t: seq<Node>, m: Membership) {
    m.Joined? && IndexOfAddress(t, m.ip, m.port) == |t| < MAX_NODES && Has(t, |t| + 1)
  }

  lemma JoinUnique(t: seq<Node>, m: Membership)
    requires UniqueIds(t) && |t| <= MAX_NODES && m.Joined?
    ensures UniqueIds(Changed(t, m)) <==> !Clashes(t, m)
  {
    var u := Changed(t, m);
    if Clashes(t, m) {
      var k :| 0 <= k < |t| && t[k].id == |t| + 1;
      assert u[k].id == u[|t|].id;
    }
  }

  lemma LeaveUnique(t: seq<Node>, id: uint32)
    requires UniqueIds(t)
    ensures UniqueIds(OnRemove(t, id).0)
    ensures forall x: uint32 :: Has(OnRemove(t, id).0, x) <==> Has(t, x) && x != id
  {
    var i, u := IndexOfId(t, id), OnRemove(t, id).0;
    forall x: uint32 | Has(t, x) && x != id ensures Has(u, x) {
      var k :| 0 <= k < |t| && t[k].id == x;
      assert u[if k < i then k else k - 1].id == x;
    }
    forall x: uint32 | Has(u, x) ensures Has(t, x) && x != id {
      var k :| 0 <= k < |u| && u[k].id == x;
      assert u[k] == t[if k < i then k else k + 1];
    }
  }

  lemma ChangedUnique(t: seq<Node>, m: Membership)
    requires UniqueIds(t) && |t| <= MAX_NODES
    ensures UniqueIds(Changed(t, m)) <==> !Clashes(t, m)
  {
    if m.Joined? {
      JoinUnique(t, m);
    } else {
      LeaveUnique(t, m.id);
    }
  }

  lemma MemberUnique(t: seq<Node>, run: seq<Membership>)
    requires |t| <= MAX_NODES && run != [] && UniqueIds(Members(t, run[..|run| - 1]))
    ensures UniqueIds(Members(t, run)) <==> !Clashes(Members(t, run[..|run| - 1]), run[|run| - 1])
  {
    var u, m := Members(t, run[..|run| - 1]), run[|run| - 1];
    ChangedUnique(u, m);
  }

  ghost predicate UniqueAll(t: seq<Node>, run: seq<Membership>)
    requires |t| <= MAX_NODES
  {
    forall j :: 0 <= j <= |run| ==> UniqueIds(Members(t, run[..j]))
  }

  ghost predicate NoClash(t: seq<Node>, run: seq<Membership>)
    requires |t| <= MAX_NODES
  {
    forall j :: 0 <= j < |run| ==> !ClashAt(t, run, j)
  }

  ghost predicate ClashAt(t: seq<Node>, run: seq<Membership>, j: nat)
    requires |t| <= MAX_NODES && j < |run|
  {
    Clashes(Members(t, run[..j]), run[j])
  }

  lemma Fronts<T>(run: seq<T>, j: nat)
    requires run != [] && j < |run|
    ensures run[..|run| - 1][..j] == run[..j] && run[..|run|] == run
  {
  }

  lemma UniqueLast(t: seq<Node>, run: seq<Membership>)
    requires |t| <= MAX_NODES && run != []
    ensures UniqueAll(t, run) <==> UniqueAll(t, run[..|run| - 1]) && UniqueIds(Members(t, run))
    ensures UniqueAll(t, run[..|run| - 1]) ==> UniqueIds(Members(t, run[..|run| - 1]))
  {
    var front := run[..|run| - 1];
    forall j | 0 <= j < |run| ensures front[..j] == run[..j] {
      Fronts(run, j);
    }
    Fronts(run, 0);
    assert front[..|front|] == front;
  }

  lemma ClashFront(t: seq<Node>, run: seq<Membership>, j: nat)
    requires |t| <= MAX_NODES && j < |run| - 1
    ensures ClashAt(t, run[..|run| - 1], j) == ClashAt(t, run, j)
  {
    Fronts(run, j);
  }

  lemma ClashLast(t: seq<Node>, run: seq<Membership>)
    requires |t| <= MAX_NODES && run != []
    ensures NoClash(t, run) <==> NoClash(t, run[..|run| - 1]) && !ClashAt(t, run, |run| - 1)
  {
    var front := run[..|run| - 1];
    if !NoClash(t, front) {
      var j :| 0 <= j < |front| && ClashAt(t, front, j);
      ClashFront(t, run, j);
    } else if !NoClash(t, run) {
      var j :| 0 <= j < |run| && ClashAt(t, run, j);
      if j < |front| { ClashFront(t, run, j); }
    }
  }

  /**
   * Ids are unique throughout a run of joins and departures if and only if no
   * new node joins while a node of the table has the id count + 1.
   */
  lemma {:induction false} UniqueThroughout(t: seq<Node>, run: seq<Membership>)
    requires UniqueIds(t) && |t| <= MAX_NODES
    ensures UniqueAll(t, run) <==> NoClash(t, run)
  {
    if run == [] {
      assert run[..0] == [];
    } else {
      UniqueThroughout(t, run[..|run| - 1]);
      UniqueLast(t, run);
      ClashLast(t, run);
      if UniqueIds(Members(t, run[..|run| - 1])) { MemberUnique(t, run); }
    }
  }

  function Departed(t: seq<Node>, ids: seq<uint32>): (u: seq<Node>)
    ensures |u| <= |t|
  {
    if ids == [] then t else OnRemove(Departed(t, ids[..|ids| - 1]), ids[|ids| - 1]).0
  }

  lemma {:induction false} DepartedHas(t: seq<Node>, ids: seq<uint32>)
    requires UniqueIds(t)
    ensures UniqueIds(Departed(t, ids))
    ensures forall x: uint32 :: Has(Departed(t, ids), x) <==> Has(t, x) && x !in ids
  {
    if ids == [] {
    } else {
      var front, last := ids[..|ids| - 1], ids[|ids| - 1];
      DepartedHas(t, front);
      LeaveUnique(Departed(t, front), last);
      assert forall x :: x in ids <==> x in front || x == last;
    }
  }

  /**
   * Which departures matter: of a table numbered 1 to n some nodes have left.
   * The next new worker's id is then fresh if and only if none was in the
   * table, or the node numbered one more than those remaining is among them.
   */
  lemma AddAfterRemovals(t: seq<Node>, ids: seq<uint32>, m: Membership)
    requires |t| <= MAX_NODES && Numbered(Keys(t)) && m.Joined?
    requires IndexOfAddress(Departed(t, ids), m.ip, m.port) == |Departed(t, ids)| < MAX_NODES
    ensures var u := Departed(t, ids);
            UniqueIds(Changed(u, m)) <==> |u| == |t| || |u| + 1 in ids
  {
    var u := Departed(t, ids);
    forall k | 0 <= k < |t| ensures t[k].id == k + 1 {
      assert Keys(t)[k].id == k + 1;
    }
    DepartedHas(t, ids);
    JoinUnique(u, m);
    if |u| < |t| { assert t[|u|].id == |u| + 1; }
  }

  /**
   * The master takes its role before it adds itself.  Its own entry has a
   * fresh id if and only if no discovery was answered in between.
   */
  lemma MasterAddsItself(t: seq<Node>, ip: Ip, port: uint16, chunks: uint32, now: int)
    requires |t| < MAX_NODES && Numbered(Keys(t)) && IndexOfAddress(t, ip, port) == |t|
    ensures UniqueIds(OnAdd(t, ip, port, chunks, ROLE_MASTER, -1, now).0) <==> t == []
  {
    var u := OnAdd(t, ip, port, chunks, ROLE_MASTER, -1, now).0;
    if t != [] {
      assert Keys(t)[0].id == 1;
      assert u[0].id == u[|t|].id;
    }
  }
}
