/** Constants and small helpers shared by all the modules. */
module Common {
  datatype Option<+T> = None | Some(value: T)

  type byte = x: int | 0 <= x < 256
  type uint16 = x: int | 0 <= x < 0x1_0000
  type uint32 = x: int | 0 <= x < 0x1_0000_0000

  const MAX_NODES := 64
  const MAX_LOCKS := 256
  const PAGE_SIZE := 4096
  const MASTER_ID := 1

  /** Sizes are rounded up to whole pages. */
  function AlignUp(size: nat): (n: nat)
    ensures n % PAGE_SIZE == 0 && size <= n < size + PAGE_SIZE
  {
    ((size + PAGE_SIZE - 1) / PAGE_SIZE) * PAGE_SIZE
  }

  function One(b: bool): nat {
    if b then 1 else 0
  }

  lemma Regroup<T>(a: seq<T>, b: seq<T>, c: seq<T>)
    ensures (a + b) + c == a + (b + c)
  {
  }

  ghost predicate Distinct<T>(s: seq<T>) {
    forall i, j :: 0 <= i < j < |s| ==> s[i] != s[j]
  }

  /** A duplicate-free sequence drawn from a set is no longer than the set. */
  lemma {:induction false} DistinctFits<T>(s: seq<T>, u: set<T>)
    requires Distinct(s)
    requires forall x :: x in s ==> x in u
    ensures |s| <= |u|
    ensures |s| == |u| ==> forall x :: x in u ==> x in s
  {
    if s == [] {
    } else {
      var n := |s| - 1;
      var front, last := s[..n], s[n];
      assert last in s;
      assert forall x :: x in front ==> x in s;
      DistinctFits(front, u - {last});
      if |s| == |u| {
        forall x | x in u ensures x in s {
          if x != last { assert x in u - {last}; assert x in front; }
        }
      }
    }
  }

  /** A sequence that mentions every element of a set is at least as long. */
  lemma {:induction false} SetFits<T>(u: set<T>, s: seq<T>)
    requires forall x :: x in u ==> x in s
    ensures |u| <= |s|
  {
    if s == [] {
      assert u == {};
    } else {
      var front, last := s[..|s| - 1], s[|s| - 1];
      assert s == front + [last];
      SetFits(u - {last}, front);
      if last in u { assert u == (u - {last}) + {last}; } else { assert u == u - {last}; }
    }
  }
}
