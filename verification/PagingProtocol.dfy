/**
 * Demand paging of the master's pages.  Every node, the master among them,
 * runs the same fault path and the same server; a page is owned by the node
 * itself or by the master.  Copying a page is not atomic, so the state follows
 * one byte of each page, at an offset the same for all: what holds for every
 * offset holds for the pages.  The application thread of a node may touch any
 * byte at any time, whatever the fault handler is doing.
 */
module PagingProtocol {
  import opened Common
  import opened PageRecord

  /** `at` says where in the owner's history of the byte the value was read. */
  datatype Data = Data(page: nat, value: byte, at: nat, version: nat)

  /**
   * `source` is the place in the owner's history the byte was last installed
   * from, and `dirtied` tells of stores of this node since; like `at` they
   * are for the reader and no step depends on them.
   */
  datatype Copy = Copy(page: Page<byte>, owned: bool, source: Option<nat>, dirtied: bool)

  /** The fault handler thread of a node. */
  datatype Handler = Ready | Fetching(page: nat) | Awaiting(page: nat) | GivingUp(page: nat)

  /** The server thread of a node, inside an installation or not. */
  datatype Window = Closed | Unprotected(data: Data) | Copied(data: Data)

  /** `up` holds the requests to the master not handled yet, `down` its replies. */
  datatype Node = Node(
    pages: map<nat, Copy>, handler: Handler, window: Window, up: seq<nat>, down: seq<Data>)

  /** `history[p]` is all the master's byte of page p has been, oldest first. */
  datatype State = State(history: map<nat, seq<byte>>, nodes: map<nat, Node>)

  datatype Event =
    | Register(n: nat, p: nat, owner: nat)
    | MarkShared(n: nat, p: nat)
    | OwnerSend(n: nat)
    | OwnerFails(n: nat)
    | Fault(n: nat, p: nat)
    | SendRequest(n: nat)
    | SendFails(n: nat)
    | FetchDone(n: nat)
    | Timeout(n: nat)
    | MarkInvalid(n: nat)
    | DataIgnored(n: nat)
    | OpenWindow(n: nat)
    | CopyData(n: nat)
    | CloseWindow(n: nat)
    | Store(n: nat, p: nat, v: byte)

  const NEW_NODE := Node(map[], Ready, Closed, [], [])

  ghost predicate Init(s: State) {
    s.history == map[] && MASTER_ID in s.nodes && forall n :: n in s.nodes ==> s.nodes[n] == NEW_NODE
  }

  /** The server thread holds page p's lock throughout an installation of p. */
  predicate InWindow(k: Node, p: nat) {
    k.window != Closed && k.window.data.page == p
  }

  /** Whether node n, being k, can take the step; m are the master's pages. */
  predicate NodeEnabled(m: map<nat, Copy>, n: nat, k: Node, e: Event) {
    match e
    case Register(_, p, owner) => p !in k.pages && (owner == n || owner == MASTER_ID)
    case MarkShared(_, p) => p in k.pages && k.pages[p].owned
    case OwnerSend(_) => k.up != [] && k.up[0] in m
    case OwnerFails(_) => k.up != []
    case Fault(_, p) => k.handler == Ready && p in k.pages && !InWindow(k, p)
    case SendRequest(_) => k.handler.Fetching?
    case SendFails(_) => k.handler.Fetching?
    case FetchDone(_) => k.handler.Awaiting? && k.handler.page in k.pages
                         && k.pages[k.handler.page].page.state != Pending
    case Timeout(_) => k.handler.Awaiting?
    case MarkInvalid(_) => k.handler.GivingUp? && k.handler.page in k.pages && !InWindow(k, k.handler.page)
    case DataIgnored(_) => k.window == Closed && k.down != [] && k.down[0].page !in k.pages
    case OpenWindow(_) => k.window == Closed && k.down != [] && k.down[0].page in k.pages
    case CopyData(_) => k.window.Unprotected? && k.window.data.page in k.pages
    case CloseWindow(_) => k.window.Copied? && k.window.data.page in k.pages
    case Store(_, p, _) => p in k.pages && k.pages[p].page.prot == ReadWrite
  }

  predicate Enabled(s: State, e: Event) {
    MASTER_ID in s.nodes && e.n in s.nodes && NodeEnabled(s.nodes[MASTER_ID].pages, e.n, s.nodes[e.n], e)
  }

  function SetPage(k: Node, p: nat, c: Copy): Node {
    k.(pages := k.pages[p := c])
  }

  /** The index of the master's present byte in its history. */
  function Latest(h: map<nat, seq<byte>>, p: nat): nat {
    if p in h && h[p] != [] then |h[p]| - 1 else 0
  }

  function NodeApply(h: map<nat, seq<byte>>, m: map<nat, Copy>, n: nat, k: Node, e: Event): Node
    requires NodeEnabled(m, n, k, e)
  {
    match e
    case Register(_, p, owner) =>
      SetPage(k, p, Copy(NewPage(owner == n, 0), owner == n, None, false))
    case MarkShared(_, p) =>
      var c := k.pages[p];
      SetPage(k, p, c.(page := c.page.(state := Shared)))
    case OwnerSend(_) =>
      var p := k.up[0];
      k.(up := k.up[1..], down := k.down + [Data(p, m[p].page.content, Latest(h, p), m[p].page.version)])
    case OwnerFails(_) => k.(up := k.up[1..])
    case Fault(_, p) =>
      var c := k.pages[p];
      var (page, fetch) := OnFault(c.page, c.owned);
      SetPage(k, p, c.(page := page)).(handler := if fetch then Fetching(p) else Ready)
    case SendRequest(_) =>
      k.(up := k.up + [k.handler.page], handler := Awaiting(k.handler.page))
    case SendFails(_) => k.(handler := GivingUp(k.handler.page))
    case FetchDone(_) => k.(handler := Ready)
    case Timeout(_) => k.(handler := GivingUp(k.handler.page))
    case MarkInvalid(_) =>
      var c := k.pages[k.handler.page];
      SetPage(k, k.handler.page, c.(page := GiveUp(c.page))).(handler := Ready)
    case DataIgnored(_) => k.(down := k.down[1..])
    case OpenWindow(_) =>
      var d := k.down[0];
      var c := k.pages[d.page];
      SetPage(k, d.page, c.(page := Unprotect(c.page))).(down := k.down[1..], window := Unprotected(d))
    case CopyData(_) =>
      var d := k.window.data;
      var c := k.pages[d.page];
      SetPage(k, d.page, c.(page := CopyIn(c.page, d.value), source := Some(d.at), dirtied := false)).(window := Copied(d))
    case CloseWindow(_) =>
      var d := k.window.data;
      var c := k.pages[d.page];
      SetPage(k, d.page, c.(page := Protect(c.page, d.version))).(window := Closed)
    case Store(_, p, v) =>
      var c := k.pages[p];
      SetPage(k, p, c.(page := c.page.(content := v), dirtied := true))
  }

  function Extend(h: map<nat, seq<byte>>, p: nat, v: byte): map<nat, seq<byte>> {
    h[p := (if p in h then h[p] else []) + [v]]
  }

  /** What a step at the master, being k, writes to its memory: zeroes, its own
      stores, and whatever its server installs. */
  function Written(h: map<nat, seq<byte>>, k: Node, e: Event): map<nat, seq<byte>> {
    match e
    case Register(_, p, _) => Extend(h, p, 0)
    case Store(_, p, v) => Extend(h, p, v)
    case CopyData(_) => if k.window == Closed then h else Extend(h, k.window.data.page, k.window.data.value)
    case _ => h
  }

  function Apply(s: State, e: Event): State
    requires Enabled(s, e)
  {
    var k := s.nodes[e.n];
    State(if e.n == MASTER_ID then Written(s.history, k, e) else s.history,
          s.nodes[e.n := NodeApply(s.history, s.nodes[MASTER_ID].pages, e.n, k, e)])
  }

  ghost predicate IsRun(states: seq<State>, events: seq<Event>) {
    && |states| == |events| + 1
    && (forall i {:trigger events[i]} :: 0 <= i < |events| ==>
          Enabled(states[i], events[i]) && states[i + 1] == Apply(states[i], events[i]))
  }

  // ---------------------------------------------------------------------
  // What every step keeps
  // ---------------------------------------------------------------------

  predicate Genuine(h: map<nat, seq<byte>>, d: Data) {
    && d.page in h && d.at < |h[d.page]| && d.value == h[d.page][d.at] && d.version == 1
  }

  predicate OwnedOk(c: Copy) {
    c.page.state in {Modified, Shared} && c.page.prot == ReadWrite && c.page.version == 1 && c.source == None
  }

  predicate RemoteOk(h: map<nat, seq<byte>>, p: nat, c: Copy, w: Window) {
    var on := w != Closed && w.data.page == p;
    && c.page.state != Modified && c.page.version == 1
    && (c.page.state == Shared ==> c.source.Some?)
    && (c.page.prot == ReadWrite <==> on)
    && (!on ==> (c.page.prot == ReadOnly <==> c.source.Some?))
    && (on && w.Copied? ==> c.source == Some(w.data.at))
    && (!c.dirtied && c.source == None ==> c.page.content == 0)
    && (c.source.Some? ==>
          && p in h && c.source.value < |h[p]|
          && (!c.dirtied ==> c.page.content == h[p][c.source.value]))
  }

  predicate CopyOk(h: map<nat, seq<byte>>, p: nat, c: Copy, w: Window) {
    if c.owned then OwnedOk(c) else RemoteOk(h, p, c, w)
  }

  /** The page is mapped here and belongs to another node. */
  predicate Remote(k: Node, p: nat) {
    p in k.pages && !k.pages[p].owned
  }

  /** Replies not installed yet, oldest first. */
  function Coming(k: Node): seq<Data> {
    (if k.window.Unprotected? then [k.window.data] else []) + k.down
  }

  /** Replies for a page come in the order of the owner's history. */
  ghost predicate Sorted(q: seq<Data>) {
    forall i, j :: 0 <= i < j < |q| && q[i].page == q[j].page ==> q[i].at <= q[j].at
  }

  /** None of them is older than what is installed of its page. */
  ghost predicate NotOlder(pages: map<nat, Copy>, q: seq<Data>) {
    forall d :: d in q && d.page in pages && pages[d.page].source.Some? ==> pages[d.page].source.value <= d.at
  }

  lemma SortedTail(q: seq<Data>)
    requires Sorted(q) && q != []
    ensures Sorted(q[1..])
    ensures forall d :: d in q[1..] ==> d in q && (d.page == q[0].page ==> q[0].at <= d.at)
  {
    assert forall i :: 0 <= i < |q| - 1 ==> q[1..][i] == q[i + 1];
  }

  lemma SortedSnoc(q: seq<Data>, d: Data)
    requires Sorted(q) && forall x :: x in q && x.page == d.page ==> x.at <= d.at
    ensures Sorted(q + [d])
  {
    assert forall i :: 0 <= i < |q| ==> q[i] in q;
  }

  /** Requests, replies and installations concern pages of another node only. */
  ghost predicate NodeOk(h: map<nat, seq<byte>>, k: Node) {
    && (forall p :: p in k.pages ==> CopyOk(h, p, k.pages[p], k.window))
    && (k.window != Closed ==> Remote(k, k.window.data.page) && Genuine(h, k.window.data))
    && (forall d :: d in k.down ==> Remote(k, d.page) && Genuine(h, d))
    && (forall p :: p in k.up ==> Remote(k, p))
    && (k.handler != Ready ==> Remote(k, k.handler.page))
    && Sorted(Coming(k)) && NotOlder(k.pages, Coming(k))
  }

  /** The master owns all its pages, and its memory is the end of their history. */
  ghost predicate MasterOk(h: map<nat, seq<byte>>, m: map<nat, Copy>) {
    && m.Keys == h.Keys
    && forall p :: p in m ==> m[p].owned && h[p] != [] && m[p].page.content == h[p][|h[p]| - 1]
  }

  ghost predicate Inv(s: State) {
    && MASTER_ID in s.nodes && MasterOk(s.history, s.nodes[MASTER_ID].pages)
    && (forall n {:trigger s.nodes[n]} :: n in s.nodes ==> NodeOk(s.history, s.nodes[n]))
  }

  /** The owner's history only grows. */
  ghost predicate Grows(g: map<nat, seq<byte>>, h: map<nat, seq<byte>>) {
    forall p :: p in g ==> p in h && g[p] <= h[p]
  }

  lemma GrowsOk(g: map<nat, seq<byte>>, h: map<nat, seq<byte>>, k: Node)
    requires NodeOk(g, k) && Grows(g, h)
    ensures NodeOk(h, k)
  {
  }

  /** A step of node n, being k, in a state where all is well: no data is for a page not mapped. */
  ghost predicate Steps(h: map<nat, seq<byte>>, m: map<nat, Copy>, n: nat, k: Node, e: Event) {
    && NodeOk(h, k) && MasterOk(h, m) && (forall p :: p in m ==> OwnedOk(m[p]))
    && NodeEnabled(m, n, k, e) && !e.DataIgnored?
  }

  lemma StepsFrom(s: State, e: Event)
    requires Inv(s) && Enabled(s, e)
    ensures Steps(s.history, s.nodes[MASTER_ID].pages, e.n, s.nodes[e.n], e)
  {
    var k := s.nodes[e.n];
    assert NodeOk(s.history, k) && NodeOk(s.history, s.nodes[MASTER_ID]);
    if k.down != [] { TailOf(k.down); }
  }

  lemma TailOf<T>(q: seq<T>)
    requires q != []
    ensures q[0] in q && forall x :: x in q[1..] ==> x in q
  {
  }

  lemma SendOk(h: map<nat, seq<byte>>, m: map<nat, Copy>, n: nat, k: Node, e: Event)
    requires Steps(h, m, n, k, e) && e.OwnerSend?
    ensures NodeOk(h, NodeApply(h, m, n, k, e))
  {
    var p := k.up[0];
    var d := Data(p, m[p].page.content, Latest(h, p), m[p].page.version);
    TailOf(k.up);
    assert OwnedOk(m[p]) && Genuine(h, d);
    assert Coming(NodeApply(h, m, n, k, e)) == Coming(k) + [d];
    SortedSnoc(Coming(k), d);
  }

  lemma HandlerOk(h: map<nat, seq<byte>>, m: map<nat, Copy>, n: nat, k: Node, e: Event)
    requires Steps(h, m, n, k, e)
    requires e.OwnerFails? || e.SendRequest? || e.SendFails? || e.FetchDone? || e.Timeout?
    ensures NodeOk(h, NodeApply(h, m, n, k, e))
  {
    if k.up != [] { TailOf(k.up); }
    assert Coming(NodeApply(h, m, n, k, e)) == Coming(k);
  }

  lemma PageOk(h: map<nat, seq<byte>>, m: map<nat, Copy>, n: nat, k: Node, e: Event)
    requires Steps(h, m, n, k, e)
    requires e.MarkInvalid? || e.MarkShared?
    ensures NodeOk(h, NodeApply(h, m, n, k, e))
  {
    assert Coming(NodeApply(h, m, n, k, e)) == Coming(k);
  }

  lemma FaultOk(h: map<nat, seq<byte>>, m: map<nat, Copy>, n: nat, k: Node, e: Event)
    requires Steps(h, m, n, k, e) && e.Fault?
    ensures NodeOk(h, NodeApply(h, m, n, k, e))
  {
    assert Coming(NodeApply(h, m, n, k, e)) == Coming(k);
  }

  lemma StoreOk(h: map<nat, seq<byte>>, m: map<nat, Copy>, n: nat, k: Node, e: Event)
    requires Steps(h, m, n, k, e) && e.Store?
    ensures NodeOk(h, NodeApply(h, m, n, k, e))
  {
    assert Coming(NodeApply(h, m, n, k, e)) == Coming(k);
  }

  lemma RegisterOk(h: map<nat, seq<byte>>, m: map<nat, Copy>, n: nat, k: Node, e: Event)
    requires Steps(h, m, n, k, e) && e.Register?
    ensures NodeOk(h, NodeApply(h, m, n, k, e))
  {
    assert Coming(NodeApply(h, m, n, k, e)) == Coming(k);
  }

  lemma OpenCopies(h: map<nat, seq<byte>>, m: map<nat, Copy>, n: nat, k: Node, e: Event)
    requires Steps(h, m, n, k, e) && e.OpenWindow?
    ensures var t := NodeApply(h, m, n, k, e); forall p :: p in t.pages ==> CopyOk(h, p, t.pages[p], t.window)
  {
    assert k.down[0] in k.down;
  }

  lemma OpenOk(h: map<nat, seq<byte>>, m: map<nat, Copy>, n: nat, k: Node, e: Event)
    requires Steps(h, m, n, k, e) && e.OpenWindow?
    ensures NodeOk(h, NodeApply(h, m, n, k, e))
  {
    var t := NodeApply(h, m, n, k, e);
    OpenCopies(h, m, n, k, e);
    TailOf(k.down);
    assert Coming(t) == Coming(k);
    assert t.pages.Keys == k.pages.Keys;
    assert forall p :: p in k.pages ==> t.pages[p].owned == k.pages[p].owned && t.pages[p].source == k.pages[p].source;
  }

  /** With the first reply copied in, those behind it are still in order. */
  lemma CopyQueue(pages: map<nat, Copy>, d: Data, down: seq<Data>, c: Copy)
    requires Sorted([d] + down) && NotOlder(pages, [d] + down) && c.source == Some(d.at)
    ensures Sorted(down) && NotOlder(pages[d.page := c], down)
  {
    SortedTail([d] + down);
    assert ([d] + down)[1..] == down;
  }

  lemma CopyDataOk(h: map<nat, seq<byte>>, m: map<nat, Copy>, n: nat, k: Node, e: Event)
    requires Steps(h, m, n, k, e) && e.CopyData?
    ensures NodeOk(h, NodeApply(h, m, n, k, e))
  {
    var t, d := NodeApply(h, m, n, k, e), k.window.data;
    assert Coming(k) == [d] + k.down && Coming(t) == k.down;
    CopyQueue(k.pages, d, k.down, t.pages[d.page]);
  }

  lemma CloseOk(h: map<nat, seq<byte>>, m: map<nat, Copy>, n: nat, k: Node, e: Event)
    requires Steps(h, m, n, k, e) && e.CloseWindow?
    ensures NodeOk(h, NodeApply(h, m, n, k, e))
  {
    assert Coming(NodeApply(h, m, n, k, e)) == Coming(k);
  }

  lemma NodeStep(h: map<nat, seq<byte>>, m: map<nat, Copy>, n: nat, k: Node, e: Event)
    requires Steps(h, m, n, k, e)
    ensures NodeOk(h, NodeApply(h, m, n, k, e))
  {
    match e
    case Register(_, _, _) => RegisterOk(h, m, n, k, e);
    case OwnerSend(_) => SendOk(h, m, n, k, e);
    case OpenWindow(_) => OpenOk(h, m, n, k, e);
    case CopyData(_) => CopyDataOk(h, m, n, k, e);
    case CloseWindow(_) => CloseOk(h, m, n, k, e);
    case MarkShared(_, _) => PageOk(h, m, n, k, e);
    case Fault(_, _) => FaultOk(h, m, n, k, e);
    case MarkInvalid(_) => PageOk(h, m, n, k, e);
    case Store(_, _, _) => StoreOk(h, m, n, k, e);
    case _ => HandlerOk(h, m, n, k, e);
  }

  /** The master asks for nothing, so its server has nothing to install. */
  lemma MasterEnabled(h: map<nat, seq<byte>>, k: Node, e: Event)
    requires Steps(h, k.pages, MASTER_ID, k, e)
    ensures e.Register? || e.MarkShared? || e.Fault? || e.Store?
  {
    if k.down != [] { TailOf(k.down); }
    if k.up != [] { TailOf(k.up); }
  }

  /** The step is the master's own store to page p. */
  predicate OwnStore(e: Event, p: nat) {
    e.Store? && e.n == MASTER_ID && e.p == p
  }

  lemma MasterKeeps(h: map<nat, seq<byte>>, k: Node, e: Event, p: nat)
    requires Steps(h, k.pages, MASTER_ID, k, e) && p in k.pages && e.n == MASTER_ID
    ensures var t := NodeApply(h, k.pages, MASTER_ID, k, e);
            && p in t.pages && t.pages[p].page.content == (if OwnStore(e, p) then e.v else k.pages[p].page.content)
            && p in h && p in Written(h, k, e) && Written(h, k, e)[p] == h[p] + (if OwnStore(e, p) then [e.v] else [])
  {
    MasterEnabled(h, k, e);
  }

  lemma MasterKeys(h: map<nat, seq<byte>>, k: Node, e: Event)
    requires Steps(h, k.pages, MASTER_ID, k, e)
    ensures NodeApply(h, k.pages, MASTER_ID, k, e).pages.Keys == Written(h, k, e).Keys
    ensures forall p :: p in h ==> p in Written(h, k, e)
  {
    MasterEnabled(h, k, e);
    assert NodeApply(h, k.pages, MASTER_ID, k, e).pages.Keys == k.pages.Keys + {e.p};
    assert Written(h, k, e).Keys == h.Keys + (if e.Register? || e.Store? then {e.p} else {});
  }

  /** Page p of the master's t has in memory what its history g ends with; h is a history before. */
  predicate Ends(h: map<nat, seq<byte>>, g: map<nat, seq<byte>>, t: map<nat, Copy>, p: nat) {
    && p in t && p in g && t[p].owned && g[p] != [] && t[p].page.content == g[p][|g[p]| - 1]
    && (p in h ==> h[p] <= g[p])
  }

  lemma MasterPage(h: map<nat, seq<byte>>, k: Node, e: Event, p: nat)
    requires Steps(h, k.pages, MASTER_ID, k, e) && e.n == MASTER_ID
    requires p in NodeApply(h, k.pages, MASTER_ID, k, e).pages && p in Written(h, k, e)
    ensures Ends(h, Written(h, k, e), NodeApply(h, k.pages, MASTER_ID, k, e).pages, p)
  {
    MasterEnabled(h, k, e);
    if p in k.pages {
      MasterKeeps(h, k, e, p);
    }
  }

  lemma AllEnd(h: map<nat, seq<byte>>, g: map<nat, seq<byte>>, t: map<nat, Copy>)
    requires t.Keys == g.Keys && (forall p :: p in h ==> p in g) && forall p :: p in t ==> Ends(h, g, t, p)
    ensures MasterOk(g, t) && Grows(h, g)
  {
    assert forall p :: p in h ==> Ends(h, g, t, p);
  }

  lemma MasterStep(h: map<nat, seq<byte>>, k: Node, e: Event)
    requires Steps(h, k.pages, MASTER_ID, k, e) && e.n == MASTER_ID
    ensures MasterOk(Written(h, k, e), NodeApply(h, k.pages, MASTER_ID, k, e).pages) && Grows(h, Written(h, k, e))
  {
    MasterKeys(h, k, e);
    var t, g := NodeApply(h, k.pages, MASTER_ID, k, e).pages, Written(h, k, e);
    forall p | p in t ensures Ends(h, g, t, p) {
      MasterPage(h, k, e, p);
    }
    AllEnd(h, g, t);
  }

  lemma StepInv(s: State, e: Event)
    requires Inv(s) && Enabled(s, e)
    ensures Inv(Apply(s, e)) && Grows(s.history, Apply(s, e).history)
  {
    var t, m := Apply(s, e), s.nodes[MASTER_ID].pages;
    StepsFrom(s, e);
    if e.n == MASTER_ID { MasterStep(s.history, s.nodes[MASTER_ID], e); }
    forall n | n in t.nodes ensures NodeOk(t.history, t.nodes[n]) {
      if n == e.n {
        NodeStep(s.history, m, n, s.nodes[n], e);
        GrowsOk(s.history, t.history, t.nodes[n]);
      } else {
        assert t.nodes[n] == s.nodes[n];
        GrowsOk(s.history, t.history, s.nodes[n]);
      }
    }
  }

  lemma {:induction false} RunInv(states: seq<State>, events: seq<Event>, i: nat)
    requires IsRun(states, events) && Init(states[0]) && i < |states|
    ensures Inv(states[i])
  {
    if i == 0 {
    } else {
      RunInv(states, events, i - 1);
      StepInv(states[i - 1], events[i - 1]);
    }
  }

  // ---------------------------------------------------------------------
  // Single writer
  // ---------------------------------------------------------------------

  predicate Maps(s: State, n: nat, p: nat) {
    n in s.nodes && p in s.nodes[n].pages
  }

  function CopyAt(s: State, n: nat, p: nat): Copy
    requires Maps(s, n, p)
  {
    s.nodes[n].pages[p]
  }

  /**
   * Single writer, in every state of every run: a node can write a page of
   * the master's exactly while an installation of it is between its two
   * protection changes.  Otherwise the page is read-only once data for it has
   * been installed and without access before; shared means installed.
   */
  lemma SingleWriter(states: seq<State>, events: seq<Event>, i: nat, n: nat, p: nat, v: byte)
    requires IsRun(states, events) && Init(states[0]) && i < |states|
    requires Maps(states[i], n, p) && !CopyAt(states[i], n, p).owned
    ensures var s, c := states[i], CopyAt(states[i], n, p);
            && (Enabled(s, Store(n, p, v)) <==> InWindow(s.nodes[n], p))
            && (!InWindow(s.nodes[n], p) ==> c.page.prot == (if c.source.Some? then ReadOnly else NoAccess))
            && (c.page.state == Shared ==> c.source.Some? && c.page.prot != NoAccess)
            && c.page.state != Modified && c.page.version == 1
  {
    RunInv(states, events, i);
    assert NodeOk(states[i].history, states[i].nodes[n]);
  }

  /**
   * The owner of a page keeps it: in every state of every run nothing is asked
   * for or on its way for a page at the node that owns it, no installation of
   * it is open or can be opened, and it is writable and valid throughout.
   */
  lemma OwnedUntouched(states: seq<State>, events: seq<Event>, i: nat, n: nat, p: nat)
    requires IsRun(states, events) && Init(states[0]) && i < |states|
    requires Maps(states[i], n, p) && CopyAt(states[i], n, p).owned
    ensures var s, k, page := states[i], states[i].nodes[n], CopyAt(states[i], n, p).page;
            && page.prot == ReadWrite && page.state in {Modified, Shared} && !InWindow(k, p)
            && p !in k.up && (forall d :: d in k.down ==> d.page != p)
            && !(Enabled(s, OpenWindow(n)) && InWindow(Apply(s, OpenWindow(n)).nodes[n], p))
            && (Enabled(s, Fault(n, p)) ==> Apply(s, Fault(n, p)).nodes[n].handler == Ready)
  {
    RunInv(states, events, i);
    var k := states[i].nodes[n];
    assert NodeOk(states[i].history, k);
    if k.down != [] { TailOf(k.down); }
  }

  /** The master's memory is the end of the history, and both go on by own stores only. */
  ghost predicate Kept(s: State, e: Event, t: State, p: nat) {
    && Maps(s, MASTER_ID, p) && Maps(t, MASTER_ID, p) && p in s.history && p in t.history
    && var now, next := CopyAt(s, MASTER_ID, p).page.content, CopyAt(t, MASTER_ID, p).page.content;
    && next == (if OwnStore(e, p) then e.v else now)
    && s.history[p] != [] && now == s.history[p][|s.history[p]| - 1]
    && t.history[p] == s.history[p] + (if OwnStore(e, p) then [e.v] else [])
  }

  /**
   * In every run the master's memory of a page changes by the master's own
   * stores and by nothing else, and the history says what it has been.
   */
  lemma OwnerWrites(states: seq<State>, events: seq<Event>, i: nat, p: nat)
    requires IsRun(states, events) && Init(states[0]) && i < |events| && Maps(states[i], MASTER_ID, p)
    ensures Kept(states[i], events[i], states[i + 1], p)
  {
    RunInv(states, events, i);
    OwnerStep(states[i], events[i], p);
  }

  lemma OwnerStep(s: State, e: Event, p: nat)
    requires Inv(s) && Enabled(s, e) && Maps(s, MASTER_ID, p)
    ensures Kept(s, e, Apply(s, e), p)
  {
    StepsFrom(s, e);
    if e.n == MASTER_ID { MasterKeeps(s.history, s.nodes[MASTER_ID], e, p); }
  }
}
