/** One page as a node keeps it, and the operations the fault path runs on it. */
module PageRecord {
  import opened Common

  datatype PageState = Invalid | Shared | Modified | Pending

  datatype Protection = NoAccess | ReadOnly | ReadWrite

  /** `content` is the whole page in memory, or one byte of it in a projection. */
  datatype Page<V> = Page(state: PageState, prot: Protection, content: V, version: nat)

  /** A page as registered: the owner's is writable, another's has no access. */
  function NewPage<V>(owned: bool, zero: V): Page<V> {
    Page(if owned then Modified else Invalid, if owned then ReadWrite else NoAccess, zero, 1)
  }

  /** A fault: a valid page needs nothing, an owned one is opened, else fetch. */
  function OnFault<V>(p: Page<V>, owned: bool): (Page<V>, bool) {
    if owned then (p.(prot := ReadWrite, state := Modified), false)
    else if p.state == Modified || p.state == Shared then (p, false)
    else (p.(state := Pending), true)
  }

  /** After a timeout or a failed send; protection and content stay. */
  function GiveUp<V>(p: Page<V>): Page<V> {
    p.(state := Invalid)
  }

  function Unprotect<V>(p: Page<V>): Page<V> {
    p.(prot := ReadWrite)
  }

  function CopyIn<V>(p: Page<V>, data: V): Page<V> {
    p.(content := data)
  }

  function Protect<V>(p: Page<V>, version: nat): Page<V> {
    p.(prot := ReadOnly, state := Shared, version := version)
  }

  class PageEntry {
    var state: PageState
    var prot: Protection
    const data: array<byte>
    var version: nat

    ghost predicate Valid()
      reads this
    {
      data.Length == PAGE_SIZE
    }

    ghost function View(): Page<seq<byte>>
      requires Valid()
      reads this, data
    {
      Page(state, prot, data[..], version)
    }

    constructor (owned: bool)
      ensures Valid() && fresh(data)
      ensures View() == NewPage(owned, seq(PAGE_SIZE, i => 0))
      ensures version == 1 && forall i :: 0 <= i < PAGE_SIZE ==> data[i] == 0
      ensures if owned then state == Modified && prot == ReadWrite else state == Invalid && prot == NoAccess
    {
      state := if owned then Modified else Invalid;
      prot := if owned then ReadWrite else NoAccess;
      version := 1;
      data := new byte[PAGE_SIZE](i => 0);
      new;
      assert data[..] == seq(PAGE_SIZE, i => 0);
    }

    method HandleFault(owned: bool) returns (fetch: bool)
      requires Valid()
      modifies this
      ensures Valid() && (View(), fetch) == OnFault(old(View()), owned)
      ensures !owned && old(state) in {Modified, Shared} ==> !fetch && View() == old(View())
      ensures !owned && old(state) in {Invalid, Pending} ==> fetch && View() == old(View()).(state := Pending)
      ensures owned ==> !fetch && View() == old(View()).(state := Modified, prot := ReadWrite)
    {
      fetch := false;
      if state == Modified || state == Shared {
        if owned {
          prot, state := ReadWrite, Modified;
        }
        return;
      }
      if owned {
        prot, state := ReadWrite, Modified;
        return;
      }
      state := Pending;
      fetch := true;
    }

    method MarkInvalid()
      requires Valid()
      modifies this
      ensures Valid() && View() == GiveUp(old(View()))
      ensures state == Invalid && prot == old(prot) && version == old(version) && data[..] == old(data[..])
    {
      state := Invalid;
    }

    /** The three visible steps of an installation, run to the end. */
    method Install(bytes: seq<byte>, newVersion: nat)
      requires Valid() && |bytes| <= PAGE_SIZE
      modifies this, data
      ensures Valid()
      ensures var whole := bytes + old(View()).content[|bytes|..];
              View() == Protect(CopyIn(Unprotect(old(View())), whole), newVersion)
      ensures state == Shared && prot == ReadOnly && version == newVersion
      ensures data[..|bytes|] == bytes && data[|bytes|..] == old(data[|bytes|..])
    {
      prot := ReadWrite;
      for i := 0 to |bytes|
        modifies data
        invariant data[..i] == bytes[..i]
        invariant data[i..] == old(data[i..])
      {
        data[i] := bytes[i];
      }
      prot, state, version := ReadOnly, Shared, newVersion;
      assert data[..] == bytes + old(data[..])[|bytes|..];
    }
  }
}
