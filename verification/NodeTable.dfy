/** The table of known nodes: changed in place, sent as bytes, and merged. */
module NodeTable {
  import opened Common
  import opened Wire

  const ROLE_MASTER: uint32 := 1
  const ROLE_WORKER: uint32 := 2
  const DISCOVERING: uint32 := 0
  const CONNECTED: uint32 := 2
  const MAX_IP_LEN := 16
  const INFO_SIZE := 34

  /** The text of an address: what a 16-byte C string can hold. */
  type Ip = s: seq<byte> | |s| < MAX_IP_LEN && 0 !in s witness []

  datatype Node = Node(
    id: uint32, role: uint32, state: uint32, ip: Ip, port: uint16, chunks: uint32, fd: int, heartbeat: int)

  /** The part of a node that travels in a table message. */
  datatype Info = Info(id: uint32, ip: Ip, port: uint16, chunks: uint32, role: uint32, state: uint32)

  function InfoOf(n: Node): Info {
    Info(n.id, n.ip, n.port, n.chunks, n.role, n.state)
  }

  function Infos(t: seq<Node>): seq<Info> {
    seq(|t|, i requires 0 <= i < |t| => InfoOf(t[i]))
  }

  /** The first node with this id, or the table's length. */
  function IndexOfId(t: seq<Node>, id: uint32): (r: nat)
    ensures r <= |t| && (r < |t| ==> t[r].id == id)
    ensures forall k :: 0 <= k < r ==> t[k].id != id
  {
    if t == [] then 0 else if t[0].id == id then 0 else 1 + IndexOfId(t[1..], id)
  }

  function IndexOfAddress(t: seq<Node>, ip: Ip, port: uint16): (r: nat)
    ensures r <= |t| && (r < |t| ==> t[r].ip == ip && t[r].port == port)
    ensures forall k :: 0 <= k < r ==> t[k].ip != ip || t[k].port != port
  {
    if t == [] then 0 else if t[0].ip == ip && t[0].port == port then 0 else 1 + IndexOfAddress(t[1..], ip, port)
  }

  /** A known address is reconnected; a new one is appended with the next id. */
  function OnAdd(t: seq<Node>, ip: Ip, port: uint16, chunks: uint32, role: uint32, fd: int, now: int): (seq<Node>, int)
    requires |t| <= MAX_NODES
  {
    var i := IndexOfAddress(t, ip, port);
    if i < |t| then (t[i := t[i].(fd := fd, state := CONNECTED, heartbeat := now)], t[i].id as int)
    else if |t| >= MAX_NODES then (t, -1)
    else
      var id: uint32 := if role == ROLE_MASTER then 1 else |t| + 1;
      var state := if fd >= 0 then CONNECTED else DISCOVERING;
      (t + [Node(id, role, state, ip, port, chunks, fd, now)], id as int)
  }

  function OnRemove(t: seq<Node>, id: uint32): (seq<Node>, int) {
    var i := IndexOfId(t, id);
    if i < |t| then (t[..i] + t[i + 1..], 0) else (t, -1)
  }

  /** A received entry overwrites what travels and leaves the rest. */
  function Set(n: Node, i: Info): Node {
    n.(ip := i.ip, port := i.port, chunks := i.chunks, role := i.role, state := i.state)
  }

  function MergeOne(t: seq<Node>, i: Info, now: int): seq<Node> {
    var k := IndexOfId(t, i.id);
    if k < |t| then t[k := Set(t[k], i)]
    else if |t| < MAX_NODES then t + [Node(i.id, i.role, i.state, i.ip, i.port, i.chunks, -1, now)]
    else t
  }

  function Merge(t: seq<Node>, infos: seq<Info>, now: int): seq<Node> {
    if infos == [] then t
    else MergeOne(Merge(t, infos[..|infos| - 1], now), infos[|infos| - 1], now)
  }

  // ---------------------------------------------------------------------
  // The message layout
  // ---------------------------------------------------------------------

  function Zeros(n: nat): (z: seq<byte>)
    ensures |z| == n && forall k :: 0 <= k < n ==> z[k] == 0
  {
    seq(n, i => 0)
  }

  function EncodeIp(ip: Ip): (b: seq<byte>)
    ensures |b| == MAX_IP_LEN
  {
    ip + Zeros(MAX_IP_LEN - |ip|)
  }

  /** The text up to the first zero byte, and never more than 15 characters. */
  function Text(b: seq<byte>, room: nat): (ip: seq<byte>)
    ensures |ip| <= room && 0 !in ip && ip <= b
    ensures |ip| == room || |ip| == |b| || b[|ip|] == 0
  {
    if room == 0 || b == [] || b[0] == 0 then [] else [b[0]] + Text(b[1..], room - 1)
  }

  lemma {:induction false} TextOfPadded(ip: seq<byte>, zeros: seq<byte>, room: nat)
    requires 0 !in ip && |ip| <= room && zeros != [] && zeros[0] == 0
    ensures Text(ip + zeros, room) == ip
  {
    if ip == [] {
      assert ip + zeros == zeros;
    } else {
      assert ip[0] in ip;
      assert (ip + zeros)[1..] == ip[1..] + zeros;
      TextOfPadded(ip[1..], zeros, room - 1);
      assert ip == [ip[0]] + ip[1..];
    }
  }

  function EncodeInfo(i: Info): (b: seq<byte>)
    ensures |b| == INFO_SIZE
  {
    EncodeU32(i.id) + EncodeIp(i.ip) + EncodeU16(i.port) + EncodeU32(i.chunks) + EncodeU32(i.role) + EncodeU32(i.state)
  }

  function DecodeInfo(b: seq<byte>): Info
    requires |b| == INFO_SIZE
  {
    Info(DecodeU32(b[0..4]), Text(b[4..20], MAX_IP_LEN - 1), DecodeU16(b[20..22]),
         DecodeU32(b[22..26]), DecodeU32(b[26..30]), DecodeU32(b[30..34]))
  }

  lemma InfoRoundTrip(i: Info)
    ensures DecodeInfo(EncodeInfo(i)) == i
  {
    var b := EncodeInfo(i);
    assert b[30..] == EncodeU32(i.state) == b[30..34];
    assert b[0..4] == EncodeU32(i.id) && b[4..20] == EncodeIp(i.ip) && b[20..22] == EncodeU16(i.port);
    assert b[22..26] == EncodeU32(i.chunks) && b[26..30] == EncodeU32(i.role) && b[30..34] == EncodeU32(i.state);
    U32RoundTrip(i.id); U16RoundTrip(i.port);
    U32RoundTrip(i.chunks); U32RoundTrip(i.role); U32RoundTrip(i.state);
    TextOfPadded(i.ip, Zeros(MAX_IP_LEN - |i.ip|), MAX_IP_LEN - 1);
  }

  function EncodeInfos(infos: seq<Info>): (b: seq<byte>)
    ensures |b| == INFO_SIZE * |infos|
  {
    if infos == [] then [] else EncodeInfos(infos[..|infos| - 1]) + EncodeInfo(infos[|infos| - 1])
  }

  function DecodeInfos(b: seq<byte>, count: nat): (infos: seq<Info>)
    requires |b| >= INFO_SIZE * count
    ensures |infos| == count
  {
    if count == 0 then []
    else DecodeInfos(b, count - 1) + [DecodeInfo(b[INFO_SIZE * (count - 1)..INFO_SIZE * count])]
  }

  function EncodeTable(infos: seq<Info>): seq<byte>
    requires |infos| <= MAX_NODES
  {
    EncodeU32(|infos|) + EncodeInfos(infos)
  }

  /** A message too short for its own count is an error, and no other is. */
  function DecodeTable(b: seq<byte>): (infos: Option<seq<Info>>)
    ensures infos.Some? <==> |b| >= 4 && |b| >= 4 + INFO_SIZE * DecodeU32(b[..4])
    ensures infos.Some? ==> |infos.value| == DecodeU32(b[..4])
  {
    if |b| < 4 then None
    else
      var count := DecodeU32(b[..4]);
      if |b| < 4 + INFO_SIZE * count then None else Some(DecodeInfos(b[4..], count))
  }

  lemma EncodeNext(infos: seq<Info>, i: nat)
    requires i < |infos|
    ensures EncodeInfos(infos[..i + 1]) == EncodeInfos(infos[..i]) + EncodeInfo(infos[i])
  {
    assert infos[..i + 1][..i] == infos[..i];
  }

  lemma DecodeLast(front: seq<byte>, e: seq<byte>, tail: seq<byte>, n: nat)
    requires |front| == INFO_SIZE * n && |e| == INFO_SIZE
    ensures DecodeInfos(front + e + tail, n + 1) == DecodeInfos(front + (e + tail), n) + [DecodeInfo(e)]
  {
    var b := front + (e + tail);
    assert front + e + tail == b;
    assert b[INFO_SIZE * n..INFO_SIZE * (n + 1)] == e;
  }

  lemma {:induction false} InfosRoundTrip(infos: seq<Info>, tail: seq<byte>)
    ensures DecodeInfos(EncodeInfos(infos) + tail, |infos|) == infos
  {
    if infos == [] {
    } else {
      var n := |infos| - 1;
      var e := EncodeInfo(infos[n]);
      var front := EncodeInfos(infos[..n]);
      assert DecodeInfos(front + (e + tail), n) == infos[..n] by {
        InfosRoundTrip(infos[..n], e + tail);
      }
      assert DecodeInfo(e) == infos[n] by {
        InfoRoundTrip(infos[n]);
      }
      DecodeLast(front, e, tail, n);
      assert EncodeInfos(infos) == front + e;
      assert infos == infos[..n] + [infos[n]];
    }
  }

  /** Any table of at most 64 nodes survives the wire and fits one message; what follows it is ignored. */
  lemma TableRoundTrip(infos: seq<Info>, tail: seq<byte>)
    requires |infos| <= MAX_NODES
    ensures DecodeTable(EncodeTable(infos) + tail) == Some(infos) && |EncodeTable(infos)| <= BUFFER_SIZE
  {
    var b := EncodeTable(infos) + tail;
    U32RoundTrip(|infos|);
    assert b[..4] == EncodeU32(|infos|) && b[4..] == EncodeInfos(infos) + tail;
    InfosRoundTrip(infos, tail);
  }

  /** The fields of an entry are at the offsets of the packed structure. */
  lemma InfoLayout(i: Info)
    ensures var b := EncodeInfo(i);
            && b[0..4] == EncodeU32(i.id) && b[4..4 + |i.ip|] == i.ip
            && (forall k :: 4 + |i.ip| <= k < 20 ==> b[k] == 0)
            && b[20..22] == EncodeU16(i.port) && b[22..26] == EncodeU32(i.chunks)
            && b[26..30] == EncodeU32(i.role) && b[30..34] == EncodeU32(i.state)
  {
    var b := EncodeInfo(i);
    assert b[30..] == EncodeU32(i.state) == b[30..34];
    assert b[4..20] == EncodeIp(i.ip) && b[4..4 + |i.ip|] == EncodeIp(i.ip)[..|i.ip|];
    forall k | 4 + |i.ip| <= k < 20 ensures b[k] == 0 {
      assert b[k] == EncodeIp(i.ip)[k - 4];
    }
  }

  /** The count comes first, then the entries one after the other. */
  lemma {:induction false} TableLayout(infos: seq<Info>, k: nat)
    requires |infos| <= MAX_NODES && k < |infos|
    ensures var b, at := EncodeTable(infos), 4 + INFO_SIZE * k;
            b[..4] == EncodeU32(|infos|) && b[at..at + INFO_SIZE] == EncodeInfo(infos[k])
  {
    var at := INFO_SIZE * k;
    EntryLayout(infos, k);
    assert EncodeTable(infos)[4 + at..4 + at + INFO_SIZE] == EncodeInfos(infos)[at..at + INFO_SIZE];
  }

  lemma {:induction false} EntryLayout(infos: seq<Info>, k: nat)
    requires k < |infos|
    ensures EncodeInfos(infos)[INFO_SIZE * k..INFO_SIZE * k + INFO_SIZE] == EncodeInfo(infos[k])
  {
    var n := |infos| - 1;
    if k == n {
    } else {
      EntryLayout(infos[..n], k);
      assert EncodeInfos(infos)[INFO_SIZE * k..INFO_SIZE * k + INFO_SIZE]
             == EncodeInfos(infos[..n])[INFO_SIZE * k..INFO_SIZE * k + INFO_SIZE];
    }
  }

  // ---------------------------------------------------------------------
  // The table in memory
  // ---------------------------------------------------------------------

  /**
   * What adding does: a known address gets its socket, state and heartbeat
   * set and nothing else; a new one goes last under the next id; a full table
   * stays as it is.
   */
  ghost predicate Added(t: seq<Node>, u: seq<Node>, ip: Ip, port: uint16, chunks: uint32, role: uint32,
                        fd: int, now: int, id: int)
  {
    var i := IndexOfAddress(t, ip, port);
    if i < |t| then
      && id == t[i].id && |u| == |t|
      && u[i].fd == fd && u[i].state == CONNECTED && u[i].heartbeat == now
      && u[i].id == t[i].id && u[i].role == t[i].role && u[i].ip == ip && u[i].port == port && u[i].chunks == t[i].chunks
      && forall k :: 0 <= k < |t| && k != i ==> u[k] == t[k]
    else if |t| == MAX_NODES then u == t && id == -1
    else
      && |u| == |t| + 1 && u[..|t|] == t
      && u[|t|].id == id == (if role == ROLE_MASTER then 1 else |t| + 1)
      && u[|t|].role == role && u[|t|].ip == ip && u[|t|].port == port && u[|t|].chunks == chunks
      && u[|t|].state == (if fd < 0 then DISCOVERING else CONNECTED) && u[|t|].fd == fd && u[|t|].heartbeat == now
  }

  lemma AddMeans(t: seq<Node>, ip: Ip, port: uint16, chunks: uint32, role: uint32, fd: int, now: int)
    requires |t| <= MAX_NODES
    ensures var (u, id) := OnAdd(t, ip, port, chunks, role, fd, now); Added(t, u, ip, port, chunks, role, fd, now, id)
  {
  }

  /** What removing does: the first node with the id goes, those behind it move up. */
  ghost predicate Removed(t: seq<Node>, u: seq<Node>, id: uint32, status: int) {
    var i := IndexOfId(t, id);
    if i < |t| then
      && status == 0 && |u| == |t| - 1
      && (forall k :: 0 <= k < i ==> u[k] == t[k]) && (forall k :: i <= k < |u| ==> u[k] == t[k + 1])
    else status == -1 && u == t
  }

  lemma RemoveMeans(t: seq<Node>, id: uint32)
    ensures Removed(t, OnRemove(t, id).0, id, OnRemove(t, id).1)
  {
  }

  class Table {
    const nodes: array<Node>
    var count: nat

    ghost predicate Valid()
      reads this
    {
      nodes.Length == MAX_NODES && count <= MAX_NODES
    }

    ghost function View(): seq<Node>
      requires Valid()
      reads this, nodes
    {
      nodes[..count]
    }

    constructor ()
      ensures Valid() && View() == [] && fresh(nodes)
    {
      count := 0;
      nodes := new Node[MAX_NODES](i => Node(0, 0, 0, [], 0, 0, 0, 0));
    }

    /** `dsm_node_table_get`: the position, or the count when there is none. */
    method Get(id: uint32) returns (i: nat)
      requires Valid()
      ensures i == IndexOfId(View(), id)
    {
      i := 0;
      while i < count && nodes[i].id != id
        invariant i <= count
        invariant forall k :: 0 <= k < i ==> nodes[k].id != id
      {
        i := i + 1;
      }
      assert forall k :: 0 <= k < count ==> View()[k] == nodes[k];
    }

    method Find(ip: Ip, port: uint16) returns (i: nat)
      requires Valid()
      ensures i == IndexOfAddress(View(), ip, port)
    {
      i := 0;
      while i < count && !(nodes[i].ip == ip && nodes[i].port == port)
        invariant i <= count
        invariant forall k :: 0 <= k < i ==> nodes[k].ip != ip || nodes[k].port != port
      {
        i := i + 1;
      }
      assert forall k :: 0 <= k < count ==> View()[k] == nodes[k];
    }

    method Add(ip: Ip, port: uint16, chunks: uint32, role: uint32, fd: int, now: int) returns (id: int)
      requires Valid()
      modifies this, nodes
      ensures Valid()
      ensures var (t, r) := OnAdd(old(View()), ip, port, chunks, role, fd, now); View() == t && id == r
      ensures Added(old(View()), View(), ip, port, chunks, role, fd, now, id)
    {
      AddMeans(View(), ip, port, chunks, role, fd, now);
      var i := Find(ip, port);
      if i < count {
        nodes[i] := nodes[i].(fd := fd, state := CONNECTED, heartbeat := now);
        return nodes[i].id;
      }
      if count >= MAX_NODES {
        return -1;
      }
      var newId: uint32 := if role == ROLE_MASTER then 1 else count + 1;
      var state := if fd >= 0 then CONNECTED else DISCOVERING;
      nodes[count] := Node(newId, role, state, ip, port, chunks, fd, now);
      count := count + 1;
      id := newId;
    }

    /** Close the gap at `found`: everything behind it moves one place forward. */
    method ShiftDown(found: nat)
      requires Valid() && found < count
      modifies nodes
      ensures nodes[..count - 1] == old(nodes[..found]) + old(nodes[found + 1..count])
    {
      ghost var was := nodes[..];
      var i := found;
      while i < count - 1
        invariant found <= i <= count - 1
        invariant nodes[..i] == was[..found] + was[found + 1..i + 1]
        invariant nodes[i..] == was[i..]
      {
        nodes[i] := nodes[i + 1];
        assert nodes[..i + 1] == nodes[..i] + [was[i + 1]];
        assert was[found + 1..i + 2] == was[found + 1..i + 1] + [was[i + 1]];
        i := i + 1;
      }
    }

    method Remove(id: uint32) returns (status: int)
      requires Valid()
      modifies this, nodes
      ensures Valid()
      ensures var (t, r) := OnRemove(old(View()), id); View() == t && status == r
      ensures Removed(old(View()), View(), id, status)
    {
      var found := Get(id);
      if found == count {
        return -1;
      }
      ghost var was := View();
      ShiftDown(found);
      assert nodes[..count - 1] == was[..found] + was[found + 1..];
      count := count - 1;
      status := 0;
    }

    method Serialize(room: nat) returns (message: Option<seq<byte>>)
      requires Valid()
      ensures message == if room < 4 + INFO_SIZE * |View()| then None else Some(EncodeTable(Infos(View())))
    {
      if room < 4 + INFO_SIZE * count {
        return None;
      }
      var b := EncodeU32(count);
      ghost var infos := Infos(View());
      for i := 0 to count
        invariant b == EncodeU32(count) + EncodeInfos(infos[..i])
      {
        var e := EncodeInfo(InfoOf(nodes[i]));
        EncodeNext(infos, i);
        Regroup(EncodeU32(count), EncodeInfos(infos[..i]), e);
        b := b + e;
      }
      assert infos[..count] == infos;
      message := Some(b);
    }

    method Deserialize(buf: seq<byte>, now: int) returns (status: int)
      requires Valid()
      modifies this, nodes
      ensures Valid()
      ensures status == (if DecodeTable(buf).Some? then 0 else -1)
      ensures View() == if DecodeTable(buf).Some? then Merge(old(View()), DecodeTable(buf).value, now) else old(View())
    {
      if |buf| < 4 {
        return -1;
      }
      var n := DecodeU32(buf[..4]);
      if |buf| < 4 + INFO_SIZE * n {
        return -1;
      }
      var infos := DecodeInfos(buf[4..], n);
      for i := 0 to n
        invariant Valid() && View() == Merge(old(View()), infos[..i], now)
      {
        var info := infos[i];
        var found := Get(info.id);
        if found < count {
          nodes[found] := Set(nodes[found], info);
        } else if count < MAX_NODES {
          nodes[count] := Node(info.id, info.role, info.state, info.ip, info.port, info.chunks, -1, now);
          count := count + 1;
        }
        assert infos[..i + 1][..i] == infos[..i];
      }
      assert infos[..n] == infos;
      status := 0;
    }
  }

  // ---------------------------------------------------------------------
  // Merging a received table
  // ---------------------------------------------------------------------

  ghost predicate UniqueIds(t: seq<Node>) {
    forall i, j :: 0 <= i < j < |t| ==> t[i].id != t[j].id
  }

  /** The node with the last entry received for its id, if any, put over it. */
  function Override(n: Node, infos: seq<Info>): Node {
    if infos == [] then n
    else
      var last := infos[|infos| - 1];
      if last.id == n.id then Set(n, last) else Override(n, infos[..|infos| - 1])
  }

  ghost predicate Has(t: seq<Node>, id: uint32) {
    exists k :: 0 <= k < |t| && t[k].id == id
  }

  lemma MergeOneFacts(t: seq<Node>, i: Info, now: int)
    requires UniqueIds(t) && |t| <= MAX_NODES
    ensures var m := MergeOne(t, i, now);
            && |t| <= |m| <= MAX_NODES && UniqueIds(m)
            && (forall k :: 0 <= k < |t| ==> m[k] == if t[k].id == i.id then Set(t[k], i) else t[k])
            && (|m| > |t| ==> |m| == |t| + 1 && m[|t|] == Set(m[|t|], i) && m[|t|].id == i.id)
            && (|m| == MAX_NODES || Has(m, i.id))
            && (Has(t, i.id) || |t| == MAX_NODES ==> |m| == |t|)
  {
    var k := IndexOfId(t, i.id);
    var m := MergeOne(t, i, now);
    if k < |t| {
      assert m[k].id == i.id;
    } else if |t| < MAX_NODES {
      assert m[|t|].id == i.id;
    }
  }

  lemma {:induction false} OverrideKeeps(n: Node, infos: seq<Info>)
    ensures var m := Override(n, infos); m.id == n.id && m.fd == n.fd && m.heartbeat == n.heartbeat
  {
    if infos == [] {
    } else {
      OverrideKeeps(n, infos[..|infos| - 1]);
    }
  }

  /** A merged table has the old nodes first, ids still unique, at most 64. */
  lemma {:induction false} MergeShape(t: seq<Node>, infos: seq<Info>, now: int)
    requires UniqueIds(t) && |t| <= MAX_NODES
    ensures |t| <= |Merge(t, infos, now)| <= MAX_NODES && UniqueIds(Merge(t, infos, now))
  {
    if infos == [] {
    } else {
      var n := |infos| - 1;
      MergeShape(t, infos[..n], now);
      MergeOneFacts(Merge(t, infos[..n], now), infos[n], now);
    }
  }

  lemma {:induction false} MergeOldNode(t: seq<Node>, infos: seq<Info>, now: int, k: nat)
    requires UniqueIds(t) && |t| <= MAX_NODES && k < |t|
    ensures k < |Merge(t, infos, now)| && Merge(t, infos, now)[k] == Override(t[k], infos)
  {
    if infos == [] {
    } else {
      var n := |infos| - 1;
      MergeShape(t, infos[..n], now);
      MergeOldNode(t, infos[..n], now, k);
      MergeOneFacts(Merge(t, infos[..n], now), infos[n], now);
      OverrideKeeps(t[k], infos[..n]);
    }
  }

  lemma {:induction false} MergeSettled(t: seq<Node>, infos: seq<Info>, now: int, k: nat)
    requires UniqueIds(t) && |t| <= MAX_NODES && k < |Merge(t, infos, now)|
    ensures Merge(t, infos, now)[k] == Override(Merge(t, infos, now)[k], infos) || infos == []
  {
    if infos == [] {
    } else {
      var n := |infos| - 1;
      var p := Merge(t, infos[..n], now);
      MergeShape(t, infos[..n], now);
      MergeOneFacts(p, infos[n], now);
      if k < |p| { MergeSettled(t, infos[..n], now, k); }
    }
  }

  lemma {:induction false} MergeCovers(t: seq<Node>, infos: seq<Info>, now: int, i: Info)
    requires UniqueIds(t) && |t| <= MAX_NODES && i in infos
    ensures |Merge(t, infos, now)| == MAX_NODES || Has(Merge(t, infos, now), i.id)
  {
    var n := |infos| - 1;
    var p := Merge(t, infos[..n], now);
    MergeShape(t, infos[..n], now);
    MergeOneFacts(p, infos[n], now);
    if i != infos[n] {
      assert infos == infos[..n] + [infos[n]];
      MergeCovers(t, infos[..n], now, i);
      if |p| < MAX_NODES {
        var k :| 0 <= k < |p| && p[k].id == i.id;
        assert Merge(t, infos, now)[k].id == i.id;
      }
    }
  }

  /**
   * Merging is a map override by id that keeps the old order: every node that
   * was there, at its old place, has the last entry received for its id put
   * over it; whatever is appended has nothing else in what travels; ids stay
   * unique; and an id received is present unless the table is full.
   */
  lemma MergeOverrides(t: seq<Node>, infos: seq<Info>, now: int)
    requires UniqueIds(t) && |t| <= MAX_NODES
    ensures var m := Merge(t, infos, now);
            && |t| <= |m| <= MAX_NODES && UniqueIds(m)
            && (forall k :: 0 <= k < |t| ==> m[k] == Override(t[k], infos))
            && (forall k :: 0 <= k < |m| ==> m[k] == Override(m[k], infos))
            && (forall i :: i in infos ==> |m| == MAX_NODES || Has(m, i.id))
  {
    var m := Merge(t, infos, now);
    MergeShape(t, infos, now);
    forall k | 0 <= k < |t| ensures m[k] == Override(t[k], infos) {
      MergeOldNode(t, infos, now, k);
    }
    forall k | 0 <= k < |m| ensures m[k] == Override(m[k], infos) {
      MergeSettled(t, infos, now, k);
    }
    forall i | i in infos ensures |m| == MAX_NODES || Has(m, i.id) {
      MergeCovers(t, infos, now, i);
    }
  }

  lemma {:induction false} MergeNoGrowth(t: seq<Node>, infos: seq<Info>, now: int)
    requires UniqueIds(t) && |t| <= MAX_NODES
    requires forall i :: i in infos ==> |t| == MAX_NODES || Has(t, i.id)
    ensures |Merge(t, infos, now)| == |t|
  {
    if infos == [] {
    } else {
      var n := |infos| - 1;
      var p, last := Merge(t, infos[..n], now), infos[n];
      assert forall i :: i in infos[..n] ==> i in infos;
      MergeNoGrowth(t, infos[..n], now);
      MergeShape(t, infos[..n], now);
      MergeOneFacts(p, last, now);
      assert last in infos;
      if |t| < MAX_NODES {
        var k :| 0 <= k < |t| && t[k].id == last.id;
        MergeOldNode(t, infos[..n], now, k);
        OverrideKeeps(t[k], infos[..n]);
        assert Has(p, last.id);
      }
    }
  }

  /** Receiving the same table twice is receiving it once, room or no room. */
  lemma MergeIdempotent(t: seq<Node>, infos: seq<Info>, now: int, later: int)
    requires UniqueIds(t) && |t| <= MAX_NODES
    ensures Merge(Merge(t, infos, now), infos, later) == Merge(t, infos, now)
  {
    var m := Merge(t, infos, now);
    MergeOverrides(t, infos, now);
    MergeNoGrowth(m, infos, later);
    MergeOverrides(m, infos, later);
  }

  /** A table received into an empty one is reproduced, in order. */
  lemma {:induction false} MergeIntoEmpty(t: seq<Node>, now: int)
    requires UniqueIds(t) && |t| <= MAX_NODES
    ensures Infos(Merge([], Infos(t), now)) == Infos(t)
  {
    if t == [] {
    } else {
      var n := |t| - 1;
      var front := t[..n];
      MergeIntoEmpty(front, now);
      assert Infos(t)[..n] == Infos(front);
      var p := Merge([], Infos(front), now);
      assert |Infos(p)| == |p| == n;
      forall k | 0 <= k < n ensures InfoOf(p[k]) == InfoOf(t[k]) {
        assert Infos(p)[k] == Infos(front)[k];
      }
      assert Merge([], Infos(t), now) == MergeOne(p, InfoOf(t[n]), now);
      MergeOneFacts([], InfoOf(t[n]), now);
    }
  }

  // ---------------------------------------------------------------------
  // Merging, field by field
  // ---------------------------------------------------------------------

  /** Entry j is the last one received for the id. */
  predicate LastFor(infos: seq<Info>, j: nat, id: uint32) {
    j < |infos| && infos[j].id == id && forall l :: j < l < |infos| ==> infos[l].id != id
  }

  predicate Unmentioned(infos: seq<Info>, id: uint32) {
    forall l :: 0 <= l < |infos| ==> infos[l].id != id
  }

  lemma {:induction false} OverrideLast(n: Node, infos: seq<Info>, j: nat)
    requires LastFor(infos, j, n.id)
    ensures var m, i := Override(n, infos), infos[j];
            && m.id == n.id && m.fd == n.fd && m.heartbeat == n.heartbeat
            && m.ip == i.ip && m.port == i.port && m.chunks == i.chunks && m.role == i.role && m.state == i.state
  {
    var last := |infos| - 1;
    if j == last {
    } else {
      assert infos[last].id != n.id;
      OverrideLast(n, infos[..last], j);
    }
  }

  lemma {:induction false} OverrideNone(n: Node, infos: seq<Info>)
    requires Unmentioned(infos, n.id)
    ensures Override(n, infos) == n
  {
    if infos == [] {
    } else {
      OverrideNone(n, infos[..|infos| - 1]);
    }
  }

  /** What is appended is connected to nothing and was heard of now. */
  lemma {:induction false} MergeNew(t: seq<Node>, infos: seq<Info>, now: int, k: nat)
    requires UniqueIds(t) && |t| <= MAX_NODES && |t| <= k < |Merge(t, infos, now)|
    ensures Merge(t, infos, now)[k].fd == -1 && Merge(t, infos, now)[k].heartbeat == now
  {
    var n := |infos| - 1;
    var p := Merge(t, infos[..n], now);
    MergeShape(t, infos[..n], now);
    MergeOneFacts(p, infos[n], now);
    if k < |p| { MergeNew(t, infos[..n], now, k); }
  }

  /**
   * After a merge a node at an old place keeps its id, socket and heartbeat
   * and has the address, port, chunks, role and state last received for its
   * id; one no entry speaks of is as it was; and a new one has all five as
   * last received for its id, with no socket.
   */
  lemma MergeFields(t: seq<Node>, infos: seq<Info>, now: int, k: nat, j: nat)
    requires UniqueIds(t) && |t| <= MAX_NODES && k < |Merge(t, infos, now)|
    ensures var m := Merge(t, infos, now)[k];
            && (k < |t| ==> m.id == t[k].id && m.fd == t[k].fd && m.heartbeat == t[k].heartbeat)
            && (k < |t| && Unmentioned(infos, t[k].id) ==> m == t[k])
            && (k >= |t| ==> m.fd == -1 && m.heartbeat == now && !Unmentioned(infos, m.id))
            && (LastFor(infos, j, m.id) ==>
                  && m.ip == infos[j].ip && m.port == infos[j].port && m.chunks == infos[j].chunks
                  && m.role == infos[j].role && m.state == infos[j].state)
  {
    var m := Merge(t, infos, now)[k];
    if k < |t| {
      MergeOldNode(t, infos, now, k);
      OverrideKeeps(t[k], infos);
      if Unmentioned(infos, t[k].id) { OverrideNone(t[k], infos); }
      if LastFor(infos, j, m.id) { OverrideLast(t[k], infos, j); }
    } else {
      MergeNew(t, infos, now, k);
      MergeMentioned(t, infos, now, k);
      MergeSettled(t, infos, now, k);
      if LastFor(infos, j, m.id) { OverrideLast(m, infos, j); }
    }
  }

  lemma {:induction false} MergeMentioned(t: seq<Node>, infos: seq<Info>, now: int, k: nat)
    requires UniqueIds(t) && |t| <= MAX_NODES && |t| <= k < |Merge(t, infos, now)|
    ensures !Unmentioned(infos, Merge(t, infos, now)[k].id)
  {
    var n := |infos| - 1;
    var p := Merge(t, infos[..n], now);
    MergeShape(t, infos[..n], now);
    MergeOneFacts(p, infos[n], now);
    if k < |p| {
      MergeMentioned(t, infos[..n], now, k);
      var l :| 0 <= l < n && infos[..n][l].id == p[k].id;
      assert infos[l].id == p[k].id;
    }
  }

  /** Where an id comes first among the entries; their number if nowhere. */
  function FirstOf(infos: seq<Info>, id: uint32): (r: nat)
    ensures r <= |infos| && (r < |infos| ==> infos[r].id == id)
    ensures forall l :: 0 <= l < r ==> infos[l].id != id
  {
    if infos == [] then 0 else if infos[0].id == id then 0 else 1 + FirstOf(infos[1..], id)
  }

  /** New ids are appended in the order in which they first come. */
  lemma {:induction false} MergeOrder(t: seq<Node>, infos: seq<Info>, now: int, k: nat, l: nat)
    requires UniqueIds(t) && |t| <= MAX_NODES && |t| <= k < l < |Merge(t, infos, now)|
    ensures FirstOf(infos, Merge(t, infos, now)[k].id) < FirstOf(infos, Merge(t, infos, now)[l].id)
  {
    var n := |infos| - 1;
    var front := infos[..n];
    var p := Merge(t, front, now);
    MergeShape(t, front, now);
    MergeOneFacts(p, infos[n], now);
    var m := Merge(t, infos, now);
    MergeMentioned(t, front, now, k);
    FirstFront(infos, p[k].id);
    if l < |p| {
      MergeOrder(t, front, now, k, l);
      MergeMentioned(t, front, now, l);
      FirstFront(infos, p[l].id);
    } else {
      assert m[l].id == infos[n].id;
      NotBefore(t, front, now, infos[n].id);
    }
  }

  lemma FirstFront(infos: seq<Info>, id: uint32)
    requires infos != [] && !Unmentioned(infos[..|infos| - 1], id)
    ensures FirstOf(infos, id) == FirstOf(infos[..|infos| - 1], id) < |infos| - 1
  {
    var front := infos[..|infos| - 1];
    var a, b := FirstOf(infos, id), FirstOf(front, id);
    var l :| 0 <= l < |front| && front[l].id == id;
    assert b < |front| && infos[b].id == id && infos[l].id == id;
    assert a <= b;
    assert forall l :: 0 <= l < b ==> infos[l] == front[l];
  }

  /** An id that is appended only now, there being room, was in no earlier entry. */
  lemma NotBefore(t: seq<Node>, infos: seq<Info>, now: int, id: uint32)
    requires UniqueIds(t) && |t| <= MAX_NODES && |Merge(t, infos, now)| < MAX_NODES && !Has(Merge(t, infos, now), id)
    ensures Unmentioned(infos, id)
  {
    forall l | 0 <= l < |infos| ensures infos[l].id != id {
      MergeCovers(t, infos, now, infos[l]);
    }
  }

  /** Sent as bytes and received into an empty table, a table is reproduced: id,
      address, port, chunks, role and state, in order. */
  lemma TableTransfer(t: seq<Node>, now: int, k: nat)
    requires UniqueIds(t) && |t| <= MAX_NODES && k < |t|
    ensures var received := DecodeTable(EncodeTable(Infos(t)));
            && received.Some?
            && var m := Merge([], received.value, now);
            && |m| == |t|
            && m[k].id == t[k].id && m[k].ip == t[k].ip && m[k].port == t[k].port
            && m[k].chunks == t[k].chunks && m[k].role == t[k].role && m[k].state == t[k].state
  {
    TableRoundTrip(Infos(t), []);
    assert EncodeTable(Infos(t)) + [] == EncodeTable(Infos(t));
    MergeIntoEmpty(t, now);
    var m := Merge([], Infos(t), now);
    assert |Infos(m)| == |m| && Infos(m)[k] == Infos(t)[k];
  }
}
