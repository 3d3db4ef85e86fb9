/** Runs in which a worker reads what the master did not have when it asked. */
module PagingRaces {
  import opened Common
  import opened PageRecord
  import opened PagingProtocol

  ghost predicate Leads(s: State, t: State) {
    exists states, events :: IsRun(states, events) && states[0] == s && states[|events|] == t
  }

  lemma LeadsSelf(s: State)
    ensures Leads(s, s)
  {
    assert IsRun([s], []);
  }

  lemma LeadsBy(s: State, e: Event, t: State, end: State)
    requires Enabled(s, e) && Apply(s, e) == t && Leads(t, end)
    ensures Leads(s, end)
  {
    var states, events :| IsRun(states, events) && states[0] == t && states[|events|] == end;
    var all, steps := [s] + states, [e] + events;
    forall i | 0 <= i < |steps| ensures Enabled(all[i], steps[i]) && all[i + 1] == Apply(all[i], steps[i]) {
      if i == 0 {
      } else {
        assert events[i - 1] == steps[i];
        assert all[i] == states[i - 1];
      }
    }
    assert IsRun(all, steps) && all[|steps|] == end;
  }

  /** The master with the one page 7, zero at first and 5 since its own store. */
  const MASTER := Node(map[7 := Copy(Page(Modified, ReadWrite, 5, 1), true, None, true)], Ready, Closed, [], [])

  /** That master, and worker 2 with the page mapped. */
  function Lone(page: Page<byte>, source: Option<nat>, handler: Handler, window: Window,
                up: seq<nat>, down: seq<Data>): State
  {
    State(map[7 := [0, 5]],
          map[1 := MASTER, 2 := Node(map[7 := Copy(page, false, source, false)], handler, window, up, down)])
  }

  const REPLY := Data(7, 5, 1, 1)

  lemma LoneNode(s: State, e: Event, page: Page<byte>, source: Option<nat>, handler: Handler, window: Window,
                 up: seq<nat>, down: seq<Data>, end: State)
    requires s.history == map[7 := [0, 5]] && s.nodes.Keys == {1, 2} && s.nodes[1] == MASTER
    requires s.nodes[2].pages.Keys == {7} && Enabled(s, e) && e.n == 2
    requires var k := NodeApply(s.history, MASTER.pages, 2, s.nodes[2], e);
             && k.pages.Keys == {7} && k.pages[7] == Copy(page, false, source, false)
             && k.handler == handler && k.window == window && k.up == up && k.down == down
    requires Leads(Lone(page, source, handler, window, up, down), end)
    ensures Leads(s, end)
  {
    var t := Lone(page, source, handler, window, up, down);
    var k := NodeApply(s.history, MASTER.pages, 2, s.nodes[2], e);
    assert k.pages == map[7 := Copy(page, false, source, false)];
    assert Apply(s, e).nodes == t.nodes;
    LeadsBy(s, e, t, end);
  }

  /** No installation yet, and the reply delivered after the timeout is opened. */
  function FirstWindow(): State {
    Lone(Page(Invalid, ReadWrite, 0, 1), None, Ready, Unprotected(REPLY), [], [])
  }

  function LateWindow(): State {
    Lone(Page(Invalid, ReadWrite, 5, 1), Some(1), Ready, Copied(REPLY), [], [])
  }

  lemma Copying(end: State)
    requires Leads(LateWindow(), end)
    ensures Leads(FirstWindow(), end)
  {
    LoneNode(FirstWindow(), CopyData(2), Page(Invalid, ReadWrite, 5, 1), Some(1), Ready, Copied(REPLY), [], [], end);
  }

  lemma TimedOut(end: State)
    requires Leads(FirstWindow(), end)
    ensures Leads(Lone(Page(Pending, NoAccess, 0, 1), None, GivingUp(7), Closed, [], [REPLY]), end)
  {
    var p := Page(Pending, NoAccess, 0 as byte, 1);
    LoneNode(Lone(p.(state := Invalid), None, Ready, Closed, [], [REPLY]), OpenWindow(2),
             Page(Invalid, ReadWrite, 0, 1), None, Ready, Unprotected(REPLY), [], [], end);
    LoneNode(Lone(p, None, GivingUp(7), Closed, [], [REPLY]), MarkInvalid(2),
             p.(state := Invalid), None, Ready, Closed, [], [REPLY], end);
  }

  lemma Served(end: State)
    requires Leads(Lone(Page(Pending, NoAccess, 0, 1), None, GivingUp(7), Closed, [], [REPLY]), end)
    ensures Leads(Lone(Page(Pending, NoAccess, 0, 1), None, Awaiting(7), Closed, [7], []), end)
  {
    var p := Page(Pending, NoAccess, 0 as byte, 1);
    LoneNode(Lone(p, None, Awaiting(7), Closed, [], [REPLY]), Timeout(2),
             p, None, GivingUp(7), Closed, [], [REPLY], end);
    LoneNode(Lone(p, None, Awaiting(7), Closed, [7], []), OwnerSend(2),
             p, None, Awaiting(7), Closed, [], [REPLY], end);
  }

  lemma Requested(end: State)
    requires Leads(Lone(Page(Pending, NoAccess, 0, 1), None, Awaiting(7), Closed, [7], []), end)
    ensures Leads(Lone(Page(Invalid, NoAccess, 0, 1), None, Ready, Closed, [], []), end)
  {
    var p := Page(Pending, NoAccess, 0 as byte, 1);
    LoneNode(Lone(p, None, Fetching(7), Closed, [], []), SendRequest(2),
             p, None, Awaiting(7), Closed, [7], [], end);
    LoneNode(Lone(p.(state := Invalid), None, Ready, Closed, [], []), Fault(2, 7),
             p, None, Fetching(7), Closed, [], [], end);
  }

  function Start(): State {
    State(map[], map[1 := NEW_NODE, 2 := NEW_NODE])
  }

  /** The master's page before its store. */
  const ZEROED := Node(map[7 := Copy(Page(Modified, ReadWrite, 0, 1), true, None, false)], Ready, Closed, [], [])

  lemma Mapped(end: State)
    requires Leads(Lone(Page(Invalid, NoAccess, 0, 1), None, Ready, Closed, [], []), end)
    ensures Leads(State(map[7 := [0, 5]], map[1 := MASTER, 2 := NEW_NODE]), end)
  {
    var mapped := Lone(Page(Invalid, NoAccess, 0, 1), None, Ready, Closed, [], []);
    var owned := State(map[7 := [0, 5]], map[1 := MASTER, 2 := NEW_NODE]);
    assert Apply(owned, Register(2, 7, 1)).nodes == mapped.nodes;
    LeadsBy(owned, Register(2, 7, 1), mapped, end);
  }

  lemma Made(end: State)
    requires Leads(State(map[7 := [0, 5]], map[1 := MASTER, 2 := NEW_NODE]), end)
    ensures Init(Start()) && Leads(Start(), end)
  {
    var owned := State(map[7 := [0, 5]], map[1 := MASTER, 2 := NEW_NODE]);
    var made := State(map[7 := [0]], map[1 := ZEROED, 2 := NEW_NODE]);
    var store := Store(1, 7, 5);
    assert NodeApply(made.history, ZEROED.pages, 1, ZEROED, store).pages == MASTER.pages;
    assert Apply(made, store).nodes == owned.nodes;
    assert Extend(made.history, 7, 5) == owned.history by { assert [0 as byte] + [5] == [0, 5]; }
    LeadsBy(made, store, owned, end);
    var first := Register(1, 7, 1);
    assert Apply(Start(), first).nodes == made.nodes;
    assert Extend(map[], 7, 0) == made.history by { assert [] + [0 as byte] == [0]; }
    LeadsBy(Start(), first, made, end);
  }

  lemma ToFirstWindow(end: State)
    requires Leads(FirstWindow(), end)
    ensures Init(Start()) && Leads(Start(), end)
  {
    TimedOut(end);
    Served(end);
    Requested(end);
    Mapped(end);
    Made(end);
  }

  /**
   * Without any store of its own a worker can read a zero the master has long
   * overwritten: the page is writable before the first reply is copied in.
   */
  lemma ZeroRead()
    ensures Init(Start()) && Leads(Start(), FirstWindow())
    ensures Maps(FirstWindow(), 2, 7) && CopyAt(FirstWindow(), 2, 7).page == Page(Invalid, ReadWrite, 0, 1)
    ensures CopyAt(FirstWindow(), 1, 7).page.content == 5 && FirstWindow().history[7] == [0, 5]
  {
    LeadsSelf(FirstWindow());
    ToFirstWindow(FirstWindow());
  }

  lemma LateStore() returns (end: State)
    ensures Leads(LateWindow(), end)
    ensures Maps(end, 2, 7) && CopyAt(end, 2, 7).page == Page(Shared, ReadOnly, 9, 1) && end.history == map[7 := [0, 5]]
  {
    var stored := Apply(LateWindow(), Store(2, 7, 9));
    end := Apply(stored, CloseWindow(2));
    LeadsSelf(end);
    LeadsBy(stored, CloseWindow(2), end, end);
    LeadsBy(LateWindow(), Store(2, 7, 9), stored, end);
  }

  /** A run that leaves worker 2 with a readable 9 where the owner only had 0 and 5. */
  lemma WindowRace() returns (end: State)
    ensures Init(Start()) && Leads(Start(), end) && Maps(end, 2, 7)
    ensures CopyAt(end, 2, 7).page == Page(Shared, ReadOnly, 9, 1) && end.history == map[7 := [0, 5]]
  {
    end := LateStore();
    Copying(end);
    ToFirstWindow(end);
  }

  /**
   * Why the window matters: a store that lands after the copying and before
   * the protection stays, and is read from then on as if the owner had made it.
   */
  lemma StoreInWindowStays(s: State, n: nat, v: byte)
    requires Inv(s) && n in s.nodes && s.nodes[n].window.Copied?
    ensures var p := s.nodes[n].window.data.page;
            && Enabled(s, Store(n, p, v)) && Enabled(Apply(s, Store(n, p, v)), CloseWindow(n))
            && var t := Apply(Apply(s, Store(n, p, v)), CloseWindow(n));
            && Maps(t, n, p) && CopyAt(t, n, p).page == Page(Shared, ReadOnly, v, 1)
            && t.history == s.history
  {
    assert NodeOk(s.history, s.nodes[n]) && NodeOk(s.history, s.nodes[MASTER_ID]);
    assert n != MASTER_ID;
  }
}
