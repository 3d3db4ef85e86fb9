/** What can be read in a page of another node, in every state of every run. */
module PagingReads {
  import opened Common
  import opened PageRecord
  import opened PagingProtocol

  /** The first i steps of a run that starts in an initial state. */
  ghost predicate Prefix(states: seq<State>, events: seq<Event>, i: nat) {
    IsRun(states, events) && Init(states[0]) && i < |states|
  }

  /** Worker n asked for page p in one of the first i steps. */
  ghost predicate Asked(states: seq<State>, events: seq<Event>, i: nat, n: nat, p: nat)
    requires IsRun(states, events) && i < |states|
  {
    exists a :: 0 <= a < i && events[a] == SendRequest(n) && states[a].nodes[n].handler == Fetching(p)
  }

  /** In one of the first i steps the owner sent n the byte as it then was, at
      index `at` of its history, and n had asked for the page before that. */
  ghost predicate SentAfterAsking(states: seq<State>, events: seq<Event>, i: nat, n: nat, p: nat, at: nat)
    requires IsRun(states, events) && i < |states|
  {
    exists b :: 0 <= b < i && events[b] == OwnerSend(n) && p in states[b].history
                && |states[b].history[p]| == at + 1 && Asked(states, events, b, n, p)
  }

  /** Everything node n holds or is about to receive stems from its requests. */
  ghost predicate Traced(states: seq<State>, events: seq<Event>, i: nat, n: nat, k: Node)
    requires IsRun(states, events) && i < |states|
  {
    TracedQueues(states, events, i, n, k) && TracedPages(states, events, i, n, k)
  }

  ghost predicate TracedQueues(states: seq<State>, events: seq<Event>, i: nat, n: nat, k: Node)
    requires IsRun(states, events) && i < |states|
  {
    && (forall p :: p in k.up ==> Asked(states, events, i, n, p))
    && (forall d :: d in k.down ==> SentAfterAsking(states, events, i, n, d.page, d.at))
    && (k.window != Closed ==> SentAfterAsking(states, events, i, n, k.window.data.page, k.window.data.at))
  }

  ghost predicate TracedPages(states: seq<State>, events: seq<Event>, i: nat, n: nat, k: Node)
    requires IsRun(states, events) && i < |states|
  {
    forall p :: p in k.pages && k.pages[p].source.Some? ==>
      SentAfterAsking(states, events, i, n, p, k.pages[p].source.value)
  }

  lemma TracedLater(states: seq<State>, events: seq<Event>, i: nat, n: nat, k: Node)
    requires IsRun(states, events) && i + 1 < |states| && Traced(states, events, i, n, k)
    ensures Traced(states, events, i + 1, n, k)
  {
  }

  /** A step gives a page a new source only by copying the data in the window. */
  lemma SourceFrom(h: map<nat, seq<byte>>, m: map<nat, Copy>, n: nat, k: Node, e: Event, p: nat)
    requires NodeEnabled(m, n, k, e) && p in NodeApply(h, m, n, k, e).pages
    ensures var c := NodeApply(h, m, n, k, e).pages[p];
            || c.source == None
            || (p in k.pages && c.source == k.pages[p].source)
            || (k.window != Closed && p == k.window.data.page && c.source == Some(k.window.data.at))
  {
  }

  lemma TracedPagesStep(states: seq<State>, events: seq<Event>, i: nat, n: nat,
                        h: map<nat, seq<byte>>, m: map<nat, Copy>, k: Node, e: Event)
    requires IsRun(states, events) && i < |states| && Traced(states, events, i, n, k) && NodeEnabled(m, n, k, e)
    ensures TracedPages(states, events, i, n, NodeApply(h, m, n, k, e))
  {
    var t := NodeApply(h, m, n, k, e);
    forall p | p in t.pages && t.pages[p].source.Some?
      ensures SentAfterAsking(states, events, i, n, p, t.pages[p].source.value)
    {
      SourceFrom(h, m, n, k, e, p);
    }
  }

  /** A step puts in the queues only what it sends. */
  lemma QueuesFrom(h: map<nat, seq<byte>>, m: map<nat, Copy>, n: nat, k: Node, e: Event)
    requires NodeEnabled(m, n, k, e)
    ensures var t := NodeApply(h, m, n, k, e);
            && (forall p :: p in t.up ==> p in k.up || (e.SendRequest? && p == k.handler.page))
            && (forall d :: d in t.down ==>
                  d in k.down || (e.OwnerSend? && d.page == k.up[0] && d.at == Latest(h, d.page)))
            && (t.window != Closed ==> t.window.data in k.down || (k.window != Closed && t.window.data == k.window.data))
  {
  }

  lemma TracedStep(states: seq<State>, events: seq<Event>, i: nat, n: nat,
                   h: map<nat, seq<byte>>, m: map<nat, Copy>, k: Node, e: Event)
    requires IsRun(states, events) && i < |states| && Traced(states, events, i, n, k) && NodeEnabled(m, n, k, e)
    requires e.SendRequest? ==> Asked(states, events, i, n, k.handler.page)
    requires e.OwnerSend? ==> SentAfterAsking(states, events, i, n, k.up[0], Latest(h, k.up[0]))
    ensures Traced(states, events, i, n, NodeApply(h, m, n, k, e))
  {
    QueuesFrom(h, m, n, k, e);
    TracedPagesStep(states, events, i, n, h, m, k, e);
  }

  lemma SentNow(states: seq<State>, events: seq<Event>, i: nat, n: nat)
    requires Prefix(states, events, i + 1) && events[i] == OwnerSend(n)
    requires n in states[i].nodes && states[i].nodes[n].up != [] && Asked(states, events, i, n, states[i].nodes[n].up[0])
    ensures var p := states[i].nodes[n].up[0]; SentAfterAsking(states, events, i + 1, n, p, Latest(states[i].history, p))
  {
    RunInv(states, events, i);
    assert Enabled(states[i], events[i]);
    var p := states[i].nodes[n].up[0];
    assert MasterOk(states[i].history, states[i].nodes[MASTER_ID].pages);
    assert p in states[i].history && |states[i].history[p]| == Latest(states[i].history, p) + 1;
  }

  lemma TraceNext(states: seq<State>, events: seq<Event>, i: nat, n: nat)
    requires Prefix(states, events, i + 1) && n in states[i].nodes
    requires Traced(states, events, i, n, states[i].nodes[n])
    ensures n in states[i + 1].nodes && Traced(states, events, i + 1, n, states[i + 1].nodes[n])
  {
    var s, e := states[i], events[i];
    var k := s.nodes[n];
    assert Enabled(s, e) && states[i + 1] == Apply(s, e);
    TracedLater(states, events, i, n, k);
    if e.n == n {
      if e.SendRequest? {
        assert Asked(states, events, i + 1, n, k.handler.page);
      } else if e.OwnerSend? {
        assert k.up[0] in k.up;
        SentNow(states, events, i, n);
      }
      TracedStep(states, events, i + 1, n, s.history, s.nodes[MASTER_ID].pages, k, e);
    }
  }

  lemma {:induction false} TraceRun(states: seq<State>, events: seq<Event>, i: nat, n: nat)
    requires Prefix(states, events, i) && n in states[i].nodes
    ensures Traced(states, events, i, n, states[i].nodes[n])
  {
    if i == 0 {
    } else {
      assert Enabled(states[i - 1], events[i - 1]);
      TraceRun(states, events, i - 1, n);
      TraceNext(states, events, i - 1, n);
    }
  }

  lemma {:induction false} GrowsRun(states: seq<State>, events: seq<Event>, i: nat, j: nat)
    requires Prefix(states, events, j) && i <= j
    ensures Grows(states[i].history, states[j].history)
    decreases j
  {
    if i == j {
    } else {
      GrowsRun(states, events, i, j - 1);
      RunInv(states, events, j - 1);
      assert Enabled(states[j - 1], events[j - 1]);
      StepInv(states[j - 1], events[j - 1]);
    }
  }

  /** Node n maps page p of the master's in state i. */
  ghost predicate RemoteAt(states: seq<State>, events: seq<Event>, i: nat, n: nat, p: nat) {
    Prefix(states, events, i) && Maps(states[i], n, p) && !CopyAt(states[i], n, p).owned
  }

  /** What node n has in its memory for page p's byte. */
  function Content(s: State, n: nat, p: nat): byte
    requires Maps(s, n, p)
  {
    CopyAt(s, n, p).page.content
  }

  /** The byte is what the master had in memory at a step that sent it to n,
      after n had asked for it. */
  ghost predicate IsSnapshot(states: seq<State>, events: seq<Event>, i: nat, n: nat, p: nat)
    requires Prefix(states, events, i) && Maps(states[i], n, p)
  {
    exists b :: 0 <= b < i && events[b] == OwnerSend(n) && Asked(states, events, b, n, p)
                && Maps(states[b], MASTER_ID, p) && Content(states[i], n, p) == Content(states[b], MASTER_ID, p)
  }

  /** What the master has in memory is a prefix's end of all its later history. */
  lemma MasterThen(states: seq<State>, events: seq<Event>, b: nat, i: nat, p: nat)
    requires Prefix(states, events, i) && b <= i && p in states[b].history
    ensures Maps(states[b], MASTER_ID, p) && states[b].history[p] != [] && p in states[i].history
    ensures |states[b].history[p]| <= |states[i].history[p]|
    ensures Content(states[b], MASTER_ID, p) == states[i].history[p][|states[b].history[p]| - 1]
  {
    GrowsRun(states, events, b, i);
    RunInv(states, events, b);
    assert MasterOk(states[b].history, states[b].nodes[MASTER_ID].pages);
  }

  /** What was sent at that place of the history was in the master's memory then. */
  lemma SentSnapshot(states: seq<State>, events: seq<Event>, i: nat, n: nat, p: nat, at: nat)
    requires Prefix(states, events, i) && Maps(states[i], n, p) && SentAfterAsking(states, events, i, n, p, at)
    requires p in states[i].history && at < |states[i].history[p]| && Content(states[i], n, p) == states[i].history[p][at]
    ensures IsSnapshot(states, events, i, n, p)
  {
    var b :| 0 <= b < i && events[b] == OwnerSend(n) && p in states[b].history
             && |states[b].history[p]| == at + 1 && Asked(states, events, b, n, p);
    MasterThen(states, events, b, i, p);
  }

  lemma SourceContent(states: seq<State>, events: seq<Event>, i: nat, n: nat, p: nat)
    requires RemoteAt(states, events, i, n, p)
    requires CopyAt(states[i], n, p).source.Some? && !CopyAt(states[i], n, p).dirtied
    ensures var at := CopyAt(states[i], n, p).source.value;
            p in states[i].history && at < |states[i].history[p]| && Content(states[i], n, p) == states[i].history[p][at]
  {
    RunInv(states, events, i);
    assert NodeOk(states[i].history, states[i].nodes[n]);
  }

  lemma SnapshotReads(states: seq<State>, events: seq<Event>, i: nat, n: nat, p: nat)
    requires RemoteAt(states, events, i, n, p)
    requires CopyAt(states[i], n, p).source.Some? && !CopyAt(states[i], n, p).dirtied
    ensures IsSnapshot(states, events, i, n, p)
  {
    TraceRun(states, events, i, n);
    SourceContent(states, events, i, n, p);
    SentSnapshot(states, events, i, n, p, CopyAt(states[i], n, p).source.value);
  }

  // ---------------------------------------------------------------------
  // Installed and stored, told from the steps of the run
  // ---------------------------------------------------------------------

  /** Step k copies a reply for page p into the memory of node n. */
  ghost predicate CopiesAt(states: seq<State>, events: seq<Event>, k: nat, n: nat, p: nat)
    requires IsRun(states, events) && k < |events|
  {
    events[k] == CopyData(n) && InWindow(states[k].nodes[n], p)
  }

  ghost predicate Installed(states: seq<State>, events: seq<Event>, i: nat, n: nat, p: nat)
    requires IsRun(states, events) && i < |states|
  {
    exists k :: 0 <= k < i && CopiesAt(states, events, k, n, p)
  }

  /** Step k is a store of node n to page p, and none of its copyings up to i is later. */
  ghost predicate StoresAt(states: seq<State>, events: seq<Event>, i: nat, k: nat, n: nat, p: nat)
    requires IsRun(states, events) && i < |states|
  {
    && k < i && events[k].Store? && events[k].n == n && events[k].p == p
    && forall j :: k < j < i ==> !CopiesAt(states, events, j, n, p)
  }

  ghost predicate StoredSince(states: seq<State>, events: seq<Event>, i: nat, n: nat, p: nat)
    requires IsRun(states, events) && i < |states|
  {
    exists k: nat :: StoresAt(states, events, i, k, n, p)
  }

  /** The reply is about to be copied; the page can be written already. */
  predicate Opened(s: State, n: nat, p: nat) {
    n in s.nodes && InWindow(s.nodes[n], p) && s.nodes[n].window.Unprotected?
  }

  /** What a step of node n does to the two bookkeeping fields of a page. */
  lemma MarksStep(h: map<nat, seq<byte>>, m: map<nat, Copy>, n: nat, k: Node, e: Event, p: nat)
    requires NodeEnabled(m, n, k, e)
    ensures var t := NodeApply(h, m, n, k, e);
            var copies := e.CopyData? && InWindow(k, p);
            && (p in t.pages <==> p in k.pages || (e.Register? && e.p == p))
            && (p in t.pages ==>
                  && (t.pages[p].source.Some? <==> copies || (p in k.pages && k.pages[p].source.Some?))
                  && (t.pages[p].dirtied <==>
                        !copies && ((e.Store? && e.p == p) || (p in k.pages && k.pages[p].dirtied))))
  {
  }

  ghost predicate Marked(states: seq<State>, events: seq<Event>, i: nat, n: nat, p: nat)
    requires IsRun(states, events) && i < |states|
  {
    && (Maps(states[i], n, p) && CopyAt(states[i], n, p).source.Some? <==> Installed(states, events, i, n, p))
    && (Maps(states[i], n, p) && CopyAt(states[i], n, p).dirtied <==> StoredSince(states, events, i, n, p))
  }

  lemma EventsStep(states: seq<State>, events: seq<Event>, i: nat, n: nat, p: nat)
    requires IsRun(states, events) && i < |events|
    ensures Installed(states, events, i + 1, n, p)
            <==> Installed(states, events, i, n, p) || CopiesAt(states, events, i, n, p)
    ensures StoredSince(states, events, i + 1, n, p)
            <==> (events[i].Store? && events[i].n == n && events[i].p == p)
                 || (StoredSince(states, events, i, n, p) && !CopiesAt(states, events, i, n, p))
  {
    if StoredSince(states, events, i, n, p) && !CopiesAt(states, events, i, n, p) {
      var k: nat :| StoresAt(states, events, i, k, n, p);
      assert StoresAt(states, events, i + 1, k, n, p);
    }
    if events[i].Store? && events[i].n == n && events[i].p == p {
      assert StoresAt(states, events, i + 1, i, n, p);
    }
    if StoredSince(states, events, i + 1, n, p) {
      var k: nat :| StoresAt(states, events, i + 1, k, n, p);
      if k < i { assert StoresAt(states, events, i, k, n, p); }
    }
  }

  lemma {:induction false} MarksRun(states: seq<State>, events: seq<Event>, i: nat, n: nat, p: nat)
    requires Prefix(states, events, i)
    ensures Marked(states, events, i, n, p)
  {
    if i == 0 {
    } else {
      MarksRun(states, events, i - 1, n, p);
      EventsStep(states, events, i - 1, n, p);
      var s, e := states[i - 1], events[i - 1];
      assert Enabled(s, e) && states[i] == Apply(s, e);
      if e.n == n {
        MarksStep(s.history, s.nodes[MASTER_ID].pages, n, s.nodes[n], e, p);
      }
    }
  }

  // ---------------------------------------------------------------------
  // The value of a store
  // ---------------------------------------------------------------------

  /** Step k is the last store of n to p, with no copying after it. */
  ghost predicate LastStore(states: seq<State>, events: seq<Event>, i: nat, k: nat, n: nat, p: nat)
    requires IsRun(states, events) && i < |states|
  {
    && StoresAt(states, events, i, k, n, p)
    && forall j :: k < j < i ==> !(events[j].Store? && events[j].n == n && events[j].p == p)
  }

  ghost predicate IsOwnStore(states: seq<State>, events: seq<Event>, i: nat, n: nat, p: nat)
    requires Prefix(states, events, i) && Maps(states[i], n, p)
  {
    exists k: nat :: LastStore(states, events, i, k, n, p) && Content(states[i], n, p) == events[k].v
  }

  /** Nothing but a store or a copying changes the memory of a mapped page. */
  lemma ContentStep(h: map<nat, seq<byte>>, m: map<nat, Copy>, n: nat, k: Node, e: Event, p: nat)
    requires NodeEnabled(m, n, k, e) && p in k.pages
    ensures p in NodeApply(h, m, n, k, e).pages
    ensures NodeApply(h, m, n, k, e).pages[p].page.content
            == if e.Store? && e.p == p then e.v
               else if e.CopyData? && InWindow(k, p) then k.window.data.value
               else k.pages[p].page.content
  {
  }

  lemma {:induction false} LastStoreRead(states: seq<State>, events: seq<Event>, i: nat, k: nat, n: nat, p: nat)
    requires Prefix(states, events, i) && LastStore(states, events, i, k, n, p)
    ensures Maps(states[i], n, p) && Content(states[i], n, p) == events[k].v
    decreases i
  {
    var s, e := states[i - 1], events[i - 1];
    assert Enabled(s, e) && states[i] == Apply(s, e);
    if i == k + 1 {
    } else {
      assert LastStore(states, events, i - 1, k, n, p);
      LastStoreRead(states, events, i - 1, k, n, p);
      assert !CopiesAt(states, events, i - 1, n, p);
    }
    if e.n == n {
      ContentStep(s.history, s.nodes[MASTER_ID].pages, n, s.nodes[n], e, p);
    }
  }

  lemma {:induction false} LastStoreExists(states: seq<State>, events: seq<Event>, i: nat, k: nat, n: nat, p: nat)
    returns (last: nat)
    requires IsRun(states, events) && i < |states| && StoresAt(states, events, i, k, n, p)
    ensures LastStore(states, events, i, last, n, p)
    decreases i - k
  {
    if j :| k < j < i && events[j].Store? && events[j].n == n && events[j].p == p {
      last := LastStoreExists(states, events, i, j, n, p);
    } else {
      last := k;
    }
  }

  // ---------------------------------------------------------------------
  // The theorem
  // ---------------------------------------------------------------------

  /**
   * In every state of every run, whatever the timeouts and late replies: a
   * node can read a page of the master's exactly when data for it has been
   * copied in, or is about to be.  What it then reads is its own last store
   * if it has stored since the last copying; else, if there was a copying, a
   * snapshot of the master's memory sent after it had asked; and else, in the
   * window of the first installation, the zero the page was mapped with.
   */
  lemma WhatIsRead(states: seq<State>, events: seq<Event>, i: nat, n: nat, p: nat)
    requires RemoteAt(states, events, i, n, p)
    ensures CopyAt(states[i], n, p).page.prot != NoAccess
            <==> Installed(states, events, i, n, p) || Opened(states[i], n, p)
    ensures if StoredSince(states, events, i, n, p) then IsOwnStore(states, events, i, n, p)
            else if Installed(states, events, i, n, p) then IsSnapshot(states, events, i, n, p)
            else Content(states[i], n, p) == 0
  {
    RunInv(states, events, i);
    assert NodeOk(states[i].history, states[i].nodes[n]);
    MarksRun(states, events, i, n, p);
    if StoredSince(states, events, i, n, p) {
      var k: nat :| StoresAt(states, events, i, k, n, p);
      var last := LastStoreExists(states, events, i, k, n, p);
      LastStoreRead(states, events, i, last, n, p);
    } else if Installed(states, events, i, n, p) {
      SnapshotReads(states, events, i, n, p);
    }
  }

  lemma {:induction false} OpenedStays(states: seq<State>, events: seq<Event>, k: nat, i: nat, n: nat, p: nat)
    requires Prefix(states, events, i) && k <= i && Opened(states[k], n, p)
    requires forall j :: k <= j < i ==> !CopiesAt(states, events, j, n, p)
    ensures Opened(states[i], n, p)
    decreases i
  {
    if i == k {
    } else {
      OpenedStays(states, events, k, i - 1, n, p);
      assert Enabled(states[i - 1], events[i - 1]);
      assert !CopiesAt(states, events, i - 1, n, p);
    }
  }

  /**
   * Where own stores come from: a store of n to a page of the master's is made
   * in the window of an installation, and one that no copying has overwritten
   * was made after the copying of it, unless that copying is still to come.
   */
  lemma StoresInWindow(states: seq<State>, events: seq<Event>, i: nat, k: nat, n: nat, p: nat)
    requires RemoteAt(states, events, i, n, p) && StoresAt(states, events, i, k, n, p)
    requires RemoteAt(states, events, k, n, p)
    ensures InWindow(states[k].nodes[n], p)
    ensures !states[k].nodes[n].window.Copied? ==> Opened(states[i], n, p)
  {
    var e := events[k];
    assert Enabled(states[k], e);
    RunInv(states, events, k);
    assert NodeOk(states[k].history, states[k].nodes[n]);
    if !states[k].nodes[n].window.Copied? {
      assert !CopiesAt(states, events, k, n, p);
      OpenedStays(states, events, k, i, n, p);
    }
  }

  // ---------------------------------------------------------------------
  // No going back
  // ---------------------------------------------------------------------

  /** A reply about to be copied is not older than what is installed. */
  lemma NextNotOlder(h: map<nat, seq<byte>>, k: Node, p: nat)
    requires NodeOk(h, k) && p in k.pages && k.pages[p].source.Some? && k.window.Unprotected? && k.window.data.page == p
    ensures k.pages[p].source.value <= k.window.data.at
  {
    assert Coming(k)[0] == k.window.data;
    assert k.window.data in Coming(k);
  }

  lemma SourceNode(h: map<nat, seq<byte>>, m: map<nat, Copy>, n: nat, k: Node, e: Event, p: nat)
    requires NodeEnabled(m, n, k, e) && p in k.pages && k.pages[p].source.Some?
    requires k.window.Unprotected? && k.window.data.page == p ==> k.pages[p].source.value <= k.window.data.at
    ensures var t := NodeApply(h, m, n, k, e);
            p in t.pages && t.pages[p].source.Some? && k.pages[p].source.value <= t.pages[p].source.value
  {
  }

  lemma SourceStep(s: State, e: Event, n: nat, p: nat)
    requires Inv(s) && Enabled(s, e) && Maps(s, n, p) && CopyAt(s, n, p).source.Some?
    ensures var t := Apply(s, e);
            && Maps(t, n, p) && CopyAt(t, n, p).source.Some?
            && CopyAt(s, n, p).source.value <= CopyAt(t, n, p).source.value
  {
    if e.n == n {
      var k := s.nodes[n];
      if k.window.Unprotected? && k.window.data.page == p { NextNotOlder(s.history, k, p); }
      SourceNode(s.history, s.nodes[MASTER_ID].pages, n, k, e, p);
    }
  }

  /** No going back: what is installed later is not older in the owner's history. */
  lemma {:induction false} NoGoingBack(states: seq<State>, events: seq<Event>, i: nat, j: nat, n: nat, p: nat)
    requires IsRun(states, events) && Init(states[0]) && i <= j < |states|
    requires Maps(states[i], n, p) && CopyAt(states[i], n, p).source.Some?
    ensures Maps(states[j], n, p) && CopyAt(states[j], n, p).source.Some?
    ensures CopyAt(states[i], n, p).source.value <= CopyAt(states[j], n, p).source.value
    decreases j
  {
    if i == j {
    } else {
      NoGoingBack(states, events, i, j - 1, n, p);
      RunInv(states, events, j - 1);
      var s, e := states[j - 1], events[j - 1];
      assert Enabled(s, e) && states[j] == Apply(s, e);
      SourceStep(s, e, n, p);
    }
  }

  /** Given up on, a page keeps what it had, and the next access without it asks again. */
  lemma RefetchedAfterGivingUp(states: seq<State>, events: seq<Event>, i: nat, n: nat)
    requires Prefix(states, events, i) && n in states[i].nodes && Enabled(states[i], MarkInvalid(n))
    ensures var s := states[i];
            var p, t := s.nodes[n].handler.page, Apply(s, MarkInvalid(n));
            && Maps(s, n, p) && Maps(t, n, p) && Content(t, n, p) == Content(s, n, p)
            && CopyAt(t, n, p).page.prot == CopyAt(s, n, p).page.prot
            && Enabled(t, Fault(n, p)) && Apply(t, Fault(n, p)).nodes[n].handler == Fetching(p)
  {
    RunInv(states, events, i);
    assert NodeOk(states[i].history, states[i].nodes[n]);
  }

  // ---------------------------------------------------------------------
  // When a request goes out
  // ---------------------------------------------------------------------

  /** A fault on a valid page of another node, such as a store to it, changes
      nothing anywhere and asks for nothing. */
  lemma ValidFault(states: seq<State>, events: seq<Event>, i: nat, n: nat, p: nat)
    requires RemoteAt(states, events, i, n, p) && Enabled(states[i], Fault(n, p))
    requires CopyAt(states[i], n, p).page.state == Shared
    ensures Apply(states[i], Fault(n, p)) == states[i]
  {
    var s := states[i];
    assert s.nodes[n].pages[p := s.nodes[n].pages[p]] == s.nodes[n].pages;
    assert s.nodes[n := s.nodes[n]] == s.nodes;
  }

  /** In one of the first i steps n faulted on page p while it was not valid there. */
  ghost predicate FaultedInvalid(states: seq<State>, events: seq<Event>, i: nat, n: nat, p: nat)
    requires IsRun(states, events) && i < |states|
  {
    exists j :: 0 <= j < i && events[j] == Fault(n, p) && Maps(states[j], n, p) && !CopyAt(states[j], n, p).owned
                && CopyAt(states[j], n, p).page.state in {Invalid, Pending}
  }

  /** Where a handler's page comes from. */
  lemma HandlerStep(h: map<nat, seq<byte>>, m: map<nat, Copy>, n: nat, k: Node, e: Event)
    requires NodeEnabled(m, n, k, e) && forall p :: p in k.pages && !k.pages[p].owned ==> k.pages[p].page.state != Modified
    ensures var t := NodeApply(h, m, n, k, e);
            t.handler == Ready || (k.handler != Ready && t.handler.page == k.handler.page)
            || (e.Fault? && t.handler == Fetching(e.p) && !k.pages[e.p].owned && k.pages[e.p].page.state in {Invalid, Pending})
  {
  }

  lemma HandlerNext(states: seq<State>, events: seq<Event>, i: nat, n: nat)
    requires Prefix(states, events, i + 1) && n in states[i].nodes && n in states[i + 1].nodes
    requires var k := states[i].nodes[n]; k.handler != Ready ==> FaultedInvalid(states, events, i, n, k.handler.page)
    ensures var k := states[i + 1].nodes[n]; k.handler != Ready ==> FaultedInvalid(states, events, i + 1, n, k.handler.page)
  {
    var s, e := states[i], events[i];
    assert Enabled(s, e) && states[i + 1] == Apply(s, e);
    if e.n == n {
      RunInv(states, events, i);
      assert NodeOk(s.history, s.nodes[n]);
      HandlerStep(s.history, s.nodes[MASTER_ID].pages, n, s.nodes[n], e);
    }
  }

  lemma {:induction false} HandlerFaulted(states: seq<State>, events: seq<Event>, i: nat, n: nat)
    requires Prefix(states, events, i) && n in states[i].nodes
    ensures var k := states[i].nodes[n]; k.handler != Ready ==> FaultedInvalid(states, events, i, n, k.handler.page)
  {
    if i == 0 {
    } else {
      assert Enabled(states[i - 1], events[i - 1]);
      HandlerFaulted(states, events, i - 1, n);
      HandlerNext(states, events, i - 1, n);
    }
  }

  /** A request goes out only for a page that was not valid when its fault was taken. */
  lemma RequestedInvalid(states: seq<State>, events: seq<Event>, i: nat, n: nat)
    requires Prefix(states, events, i) && n in states[i].nodes && Enabled(states[i], SendRequest(n))
    ensures var t, p := Apply(states[i], SendRequest(n)), states[i].nodes[n].handler.page;
            t.nodes[n].up == states[i].nodes[n].up + [p] && FaultedInvalid(states, events, i, n, p)
  {
    HandlerFaulted(states, events, i, n);
  }

  /** A fetch that has ended leaves everything as installed, and the handler ready. */
  lemma FetchEnds(s: State, n: nat)
    requires Enabled(s, FetchDone(n))
    ensures Apply(s, FetchDone(n)) == s.(nodes := s.nodes[n := s.nodes[n].(handler := Ready)])
    ensures s.nodes[n].pages[s.nodes[n].handler.page].page.state != Pending
  {
  }

  /** A page is pending only while the handler is busy with it. */
  ghost predicate PendingHandled(k: Node) {
    forall p :: p in k.pages && k.pages[p].page.state == Pending ==> k.handler != Ready && k.handler.page == p
  }

  lemma PendingStep(h: map<nat, seq<byte>>, m: map<nat, Copy>, n: nat, k: Node, e: Event)
    requires NodeEnabled(m, n, k, e) && PendingHandled(k)
    ensures PendingHandled(NodeApply(h, m, n, k, e))
  {
  }

  /** So no page stays pending after a timeout or a failed send. */
  lemma {:induction false} PendingRun(states: seq<State>, events: seq<Event>, i: nat, n: nat)
    requires Prefix(states, events, i) && n in states[i].nodes
    ensures PendingHandled(states[i].nodes[n])
  {
    if i == 0 {
    } else {
      var s, e := states[i - 1], events[i - 1];
      assert Enabled(s, e) && states[i] == Apply(s, e);
      PendingRun(states, events, i - 1, n);
      if e.n == n { PendingStep(s.history, s.nodes[MASTER_ID].pages, n, s.nodes[n], e); }
    }
  }

  /** The owner may mark its page shared; a fault on it makes it modified again,
      and both leave it writable with what it holds. */
  lemma OwnerMarks(states: seq<State>, events: seq<Event>, i: nat, n: nat, p: nat)
    requires Prefix(states, events, i) && Maps(states[i], n, p) && CopyAt(states[i], n, p).owned
    ensures var s, c := states[i], CopyAt(states[i], n, p);
            && Enabled(s, MarkShared(n, p))
            && CopyAt(Apply(s, MarkShared(n, p)), n, p) == c.(page := Page(Shared, ReadWrite, c.page.content, 1))
            && (Enabled(s, Fault(n, p)) ==>
                  CopyAt(Apply(s, Fault(n, p)), n, p) == c.(page := Page(Modified, ReadWrite, c.page.content, 1)))
  {
    RunInv(states, events, i);
    assert NodeOk(states[i].history, states[i].nodes[n]);
  }

  // ---------------------------------------------------------------------
  // The channels
  // ---------------------------------------------------------------------

  /** The page a step of node n asks for, if any, and the one whose request it handles. */
  function Asks(s: State, e: Event, n: nat): seq<nat> {
    if e == SendRequest(n) && Enabled(s, e) then [s.nodes[n].handler.page] else []
  }

  function Handles(s: State, e: Event, n: nat): seq<nat> {
    if (e == OwnerSend(n) || e == OwnerFails(n)) && Enabled(s, e) then [s.nodes[n].up[0]] else []
  }

  /** The reply a step sends to node n, and the one its server takes. */
  function Sends(s: State, e: Event, n: nat): seq<Data> {
    if e == OwnerSend(n) && Enabled(s, e) then
      var p := s.nodes[n].up[0];
      [Data(p, Content(s, MASTER_ID, p), Latest(s.history, p), CopyAt(s, MASTER_ID, p).page.version)]
    else []
  }

  function Takes(s: State, e: Event, n: nat): seq<Data> {
    if (e == OpenWindow(n) || e == DataIgnored(n)) && Enabled(s, e) then [s.nodes[n].down[0]] else []
  }

  lemma UpStep(s: State, e: Event, n: nat)
    requires Enabled(s, e) && n in s.nodes
    ensures n in Apply(s, e).nodes
    ensures s.nodes[n].up + Asks(s, e, n) == Handles(s, e, n) + Apply(s, e).nodes[n].up
  {
  }

  lemma DownStep(s: State, e: Event, n: nat)
    requires Enabled(s, e) && n in s.nodes
    ensures n in Apply(s, e).nodes
    ensures s.nodes[n].down + Sends(s, e, n) == Takes(s, e, n) + Apply(s, e).nodes[n].down
  {
  }

  /** The first i steps of a run, one after the other. */
  ghost function Requests(states: seq<State>, events: seq<Event>, i: nat, n: nat): seq<nat>
    requires |states| == |events| + 1 && i <= |events|
  {
    if i == 0 then [] else Requests(states, events, i - 1, n) + Asks(states[i - 1], events[i - 1], n)
  }

  ghost function Handled(states: seq<State>, events: seq<Event>, i: nat, n: nat): seq<nat>
    requires |states| == |events| + 1 && i <= |events|
  {
    if i == 0 then [] else Handled(states, events, i - 1, n) + Handles(states[i - 1], events[i - 1], n)
  }

  ghost function Replies(states: seq<State>, events: seq<Event>, i: nat, n: nat): seq<Data>
    requires |states| == |events| + 1 && i <= |events|
  {
    if i == 0 then [] else Replies(states, events, i - 1, n) + Sends(states[i - 1], events[i - 1], n)
  }

  ghost function TakenIn(states: seq<State>, events: seq<Event>, i: nat, n: nat): seq<Data>
    requires |states| == |events| + 1 && i <= |events|
  {
    if i == 0 then [] else TakenIn(states, events, i - 1, n) + Takes(states[i - 1], events[i - 1], n)
  }

  lemma RunStep(states: seq<State>, events: seq<Event>, i: nat, n: nat)
    requires IsRun(states, events) && i < |events| && n in states[i].nodes
    ensures n in states[i + 1].nodes
    ensures states[i].nodes[n].up + Asks(states[i], events[i], n) == Handles(states[i], events[i], n) + states[i + 1].nodes[n].up
    ensures states[i].nodes[n].down + Sends(states[i], events[i], n) == Takes(states[i], events[i], n) + states[i + 1].nodes[n].down
  {
    assert Enabled(states[i], events[i]);
    UpStep(states[i], events[i], n);
    DownStep(states[i], events[i], n);
  }

  lemma Shifted<T>(sent: seq<T>, done: seq<T>, queue: seq<T>, x: seq<T>, y: seq<T>, rest: seq<T>)
    requires sent == done + queue && queue + x == y + rest
    ensures sent + x == (done + y) + rest
  {
    Regroup(done, queue, x);
    Regroup(done, y, rest);
  }

  lemma {:induction false} Mapped(states: seq<State>, events: seq<Event>, i: nat, n: nat)
    requires IsRun(states, events) && i < |states| && n in states[i].nodes
    ensures n in states[0].nodes && (i > 0 ==> n in states[i - 1].nodes)
  {
    if i == 0 {
    } else {
      assert Enabled(states[i - 1], events[i - 1]);
      Mapped(states, events, i - 1, n);
    }
  }

  /**
   * The channels, in every run: requests are handled and replies taken in the
   * order they were sent, once each, and the rest is on its way; a reply holds
   * what the master had in memory when it sent it.
   */
  lemma {:induction false} ChannelsInOrder(states: seq<State>, events: seq<Event>, i: nat, n: nat)
    requires Prefix(states, events, i) && n in states[i].nodes
    ensures Requests(states, events, i, n) == Handled(states, events, i, n) + states[i].nodes[n].up
    ensures Replies(states, events, i, n) == TakenIn(states, events, i, n) + states[i].nodes[n].down
  {
    if i == 0 {
    } else {
      Mapped(states, events, i, n);
      ChannelsInOrder(states, events, i - 1, n);
      RunStep(states, events, i - 1, n);
      var s, e, k, t := states[i - 1], events[i - 1], states[i - 1].nodes[n], states[i].nodes[n];
      Shifted(Requests(states, events, i - 1, n), Handled(states, events, i - 1, n), k.up, Asks(s, e, n), Handles(s, e, n), t.up);
      Shifted(Replies(states, events, i - 1, n), TakenIn(states, events, i - 1, n), k.down, Sends(s, e, n), Takes(s, e, n), t.down);
    }
  }
}
