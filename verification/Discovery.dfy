/** Discovery datagrams as text, and what the listener does with one. */
module Discovery {
  import opened Common
  import opened Wire
  import opened NodeTable

  const SLASH: byte := 47
  const ZERO: byte := 48

  /** A datagram's text has no zero byte: C strings end there. */
  type Text = s: seq<byte> | 0 !in s witness []

  datatype Peer = Peer(ip: Ip, port: int, chunks: int)

  function Ascii(s: string): (b: seq<byte>)
    ensures |b| == |s|
  {
    seq(|s|, i requires 0 <= i < |s| => Code(s[i]))
  }

  function Code(c: char): byte {
    if c < 128 as char then c as int else 0
  }

  function DiscoverTag(): seq<byte> {
    Ascii("DISCOVER_DSM/")
  }

  function ReplyTag(): seq<byte> {
    Ascii("DISCOVER_REPLY/")
  }

  function Decimal(n: nat): (d: seq<byte>)
    ensures d != [] && forall c :: c in d ==> IsDigit(c)
    ensures d[0] == ZERO ==> n == 0 && |d| == 1
  {
    if n < 10 then [ZERO + n] else Decimal(n / 10) + [ZERO + n % 10]
  }

  predicate IsDigit(c: byte) {
    ZERO <= c < ZERO + 10
  }

  predicate IsSpace(c: byte) {
    c == 32 || 9 <= c <= 13
  }

  /** Printing with "TAG/%s/%d/%d". */
  function Print(tag: seq<byte>, ip: Ip, port: nat, chunks: nat): seq<byte> {
    tag + (ip + ([SLASH] + (Decimal(port) + ([SLASH] + Decimal(chunks)))))
  }

  // ---------------------------------------------------------------------
  // Scanning with "TAG/%15[^/]/%d/%d"
  // ---------------------------------------------------------------------

  /** The longest run of characters other than a slash, at most `room` of them. */
  function Field(s: seq<byte>, room: nat): (f: seq<byte>)
    ensures f <= s && |f| <= room && SLASH !in f
    ensures |f| == room || |f| == |s| || s[|f|] == SLASH
    ensures 0 !in s ==> 0 !in f
  {
    if room == 0 || s == [] || s[0] == SLASH then [] else [s[0]] + Field(s[1..], room - 1)
  }

  function SkipSpace(s: seq<byte>): seq<byte> {
    if s != [] && IsSpace(s[0]) then SkipSpace(s[1..]) else s
  }

  function Digits(s: seq<byte>, value: nat): (nat, seq<byte>) {
    if s == [] || !IsDigit(s[0]) then (value, s) else Digits(s[1..], 10 * value + (s[0] - ZERO))
  }

  /** A "%d": blanks, a sign, at least one digit; the number and what follows. */
  function Number(text: seq<byte>): Option<(int, seq<byte>)> {
    var s := SkipSpace(text);
    var signed := s != [] && (s[0] == 43 || s[0] == 45);
    var d := if signed then s[1..] else s;
    if d == [] || !IsDigit(d[0]) then None
    else
      var (value, rest) := Digits(d, 0);
      var signedValue: int := if signed && s[0] == 45 then -(value as int) else value;
      Some((signedValue, rest))
  }

  function Scan(text: Text, tag: seq<byte>): Option<Peer> {
    if !(tag <= text) then None
    else
      var s := text[|tag|..];
      var ip := Field(s, MAX_IP_LEN - 1);
      var t := s[|ip|..];
      if ip == [] || t == [] || t[0] != SLASH then None
      else
        match Number(t[1..])
        case None => None
        case Some((port, u)) =>
          if u == [] || u[0] != SLASH then None
          else
            match Number(u[1..])
            case None => None
            case Some((chunks, _)) => Some(Peer(ip, port, chunks))
  }

  lemma FieldCons(c: byte, s: seq<byte>, room: nat)
    requires c != SLASH && room > 0
    ensures Field([c] + s, room) == [c] + Field(s, room - 1)
  {
    assert ([c] + s)[1..] == s;
  }

  lemma {:induction false} FieldOfText(ip: seq<byte>, rest: seq<byte>, room: nat)
    requires SLASH !in ip && |ip| <= room && rest != [] && rest[0] == SLASH
    ensures Field(ip + rest, room) == ip
  {
    if ip == [] {
      assert ip + rest == rest;
    } else {
      var c, tail := ip[0], ip[1..];
      assert ip == [c] + tail && c in ip;
      assert Field(tail + rest, room - 1) == tail by {
        FieldOfText(tail, rest, room - 1);
      }
      assert ip + rest == [c] + (tail + rest) by {
        Regroup([c], tail, rest);
      }
      FieldCons(c, tail + rest, room);
    }
  }

  lemma {:induction false} DigitsOfDecimal(n: nat, rest: seq<byte>)
    ensures Digits(Decimal(n) + rest, 0) == Digits(rest, n)
  {
    if n < 10 {
      assert (Decimal(n) + rest)[1..] == rest;
    } else {
      var last := [ZERO + n % 10];
      assert Decimal(n) + rest == Decimal(n / 10) + (last + rest);
      DigitsOfDecimal(n / 10, last + rest);
      assert (last + rest)[1..] == rest;
    }
  }

  lemma NumberOfDecimal(n: nat, rest: seq<byte>)
    requires rest == [] || rest[0] == SLASH
    ensures Number(Decimal(n) + rest) == Some((n, rest))
  {
    var s := Decimal(n) + rest;
    assert s[0] == Decimal(n)[0] && Decimal(n)[0] in Decimal(n);
    DigitsOfDecimal(n, rest);
  }

  /** The value of some digits. */
  function Value(d: seq<byte>): nat
    requires forall c :: c in d ==> IsDigit(c)
  {
    if d == [] then 0
    else
      assert d[|d| - 1] in d && IsDigit(d[|d| - 1]);
      10 * Value(d[..|d| - 1]) + (d[|d| - 1] as int - ZERO as int)
  }

  lemma {:induction false} DigitsValue(d: seq<byte>, rest: seq<byte>)
    requires (forall c :: c in d ==> IsDigit(c)) && (rest != [] ==> !IsDigit(rest[0]))
    ensures Digits(d + rest, 0) == (Value(d), rest)
  {
    DigitsOf(d, rest);
  }

  lemma {:induction false} DigitsOf(d: seq<byte>, rest: seq<byte>)
    requires forall c :: c in d ==> IsDigit(c)
    ensures Digits(d + rest, 0) == Digits(rest, Value(d))
  {
    if d == [] {
      assert d + rest == rest;
    } else {
      var front, last := d[..|d| - 1], [d[|d| - 1]];
      assert d == front + last && last[0] in d;
      Regroup(front, last, rest);
      DigitsOf(front, last + rest);
      assert (last + rest)[1..] == rest;
    }
  }

  lemma {:induction false} SkipSpaces(spaces: seq<byte>, rest: seq<byte>)
    requires (forall c :: c in spaces ==> IsSpace(c)) && (rest != [] ==> !IsSpace(rest[0]))
    ensures SkipSpace(spaces + rest) == rest
  {
    if spaces == [] {
      assert spaces + rest == rest;
    } else {
      assert spaces[0] in spaces;
      assert (spaces + rest)[1..] == spaces[1..] + rest;
      SkipSpaces(spaces[1..], rest);
    }
  }

  /** "%d" on blanks, a sign or none, and digits: the number, up to the last digit. */
  lemma NumberSigned(spaces: seq<byte>, negative: bool, d: seq<byte>, rest: seq<byte>)
    requires (forall c :: c in spaces ==> IsSpace(c)) && d != [] && (forall c :: c in d ==> IsDigit(c))
    requires rest != [] ==> !IsDigit(rest[0])
    ensures Number(spaces + (d + rest)) == Some((Value(d) as int, rest))
    ensures Number(spaces + ([43] + (d + rest))) == Some((Value(d) as int, rest))
    ensures Number(spaces + ([45] + (d + rest))) == Some((-(Value(d) as int), rest))
  {
    assert d[0] in d;
    DigitsValue(d, rest);
    SkipSpaces(spaces, d + rest);
    SkipSpaces(spaces, [43] + (d + rest));
    SkipSpaces(spaces, [45] + (d + rest));
    assert ([43] + (d + rest))[1..] == d + rest && ([45] + (d + rest))[1..] == d + rest;
  }

  /**
   * A text scans under a tag exactly if it is the tag, 1 to 15 characters that
   * are no slash, a slash, a number, a slash, and a number; what follows that
   * does not matter.
   */
  lemma ScanExact(text: Text, tag: seq<byte>, p: Peer)
    ensures Scan(text, tag) == Some(p) <==>
              exists u, v, w :: Scans(text, tag, p, u, v, w)
  {
    if Scan(text, tag) == Some(p) {
      var s := text[|tag|..];
      var t := s[|p.ip|..];
      var u := t[1..];
      var after := Number(u).value.1;
      assert s == p.ip + t && t == [SLASH] + u && after == [SLASH] + after[1..];
      assert Scans(text, tag, p, u, after[1..], Number(after[1..]).value.1);
    }
    if u, v, w :| Scans(text, tag, p, u, v, w) {
      var t := [SLASH] + u;
      assert text[|tag|..] == p.ip + t;
      FieldOfText(p.ip, t, MAX_IP_LEN - 1);
      assert (p.ip + t)[|p.ip|..] == t && t[1..] == u;
      assert ([SLASH] + v)[1..] == v;
    }
  }

  ghost predicate Scans(text: seq<byte>, tag: seq<byte>, p: Peer, u: seq<byte>, v: seq<byte>, w: seq<byte>) {
    && text == tag + (p.ip + ([SLASH] + u)) && 1 <= |p.ip| <= 15 && SLASH !in p.ip
    && Number(u) == Some((p.port, [SLASH] + v)) && Number(v) == Some((p.chunks, w))
  }

  lemma PrintIsText(tag: Text, ip: Ip, port: nat, chunks: nat)
    ensures 0 !in Print(tag, ip, port, chunks)
  {
    assert forall c :: c in Decimal(port) ==> IsDigit(c);
    assert forall c :: c in Decimal(chunks) ==> IsDigit(c);
  }

  /** What is printed under a tag scans back under that tag to the same triple. */
  lemma PrintScan(tag: Text, ip: Ip, port: nat, chunks: nat)
    requires ip != [] && SLASH !in ip
    ensures 0 !in Print(tag, ip, port, chunks)
    ensures Scan(Print(tag, ip, port, chunks), tag) == Some(Peer(ip, port, chunks))
  {
    PrintIsText(tag, ip, port, chunks);
    var u := [SLASH] + Decimal(chunks);
    var t := [SLASH] + (Decimal(port) + u);
    var text := Print(tag, ip, port, chunks);
    assert text[|tag|..] == ip + t;
    FieldOfText(ip, t, MAX_IP_LEN - 1);
    assert (ip + t)[|ip|..] == t;
    assert t[1..] == Decimal(port) + u;
    NumberOfDecimal(port, u);
    assert u[1..] == Decimal(chunks) + [];
    NumberOfDecimal(chunks, []);
  }

  lemma TagsAreText()
    ensures 0 !in DiscoverTag() && 0 !in ReplyTag()
  {
  }

  /** What tells the tags apart: the letters "DSM/" and "REPLY/". */
  lemma TagLetters()
    ensures |DiscoverTag()| == 13 && DiscoverTag()[9..] == [68, 83, 77, 47]
    ensures |ReplyTag()| == 15 && ReplyTag()[9..] == [82, 69, 80, 76, 89, 47]
    ensures DiscoverTag()[..9] == ReplyTag()[..9] == [68, 73, 83, 67, 79, 86, 69, 82, 95]
  {
  }

  /** No text at all scans under both tags. */
  lemma TagsExclusive(text: Text)
    ensures Scan(text, DiscoverTag()) == None || Scan(text, ReplyTag()) == None
  {
    assert DiscoverTag()[9] != ReplyTag()[9];
  }

  /**
   * Round trip of both datagrams, for every address text of 1 to 15 characters
   * without a slash, every port and every chunk count; neither is taken for
   * the other.
   */
  lemma DatagramRoundTrip(ip: Ip, port: uint16, chunks: nat)
    requires ip != [] && SLASH !in ip && 1 <= chunks <= 1024
    ensures var d, r := Print(DiscoverTag(), ip, port, chunks), Print(ReplyTag(), ip, port, chunks);
            && 0 !in d && 0 !in r
            && Scan(d, DiscoverTag()) == Some(Peer(ip, port, chunks)) && Scan(d, ReplyTag()) == None
            && Scan(r, ReplyTag()) == Some(Peer(ip, port, chunks)) && Scan(r, DiscoverTag()) == None
  {
    TagsAreText();
    PrintScan(DiscoverTag(), ip, port, chunks);
    PrintScan(ReplyTag(), ip, port, chunks);
    TagsExclusive(Print(DiscoverTag(), ip, port, chunks));
    TagsExclusive(Print(ReplyTag(), ip, port, chunks));
  }

  // ---------------------------------------------------------------------
  // The listener
  // ---------------------------------------------------------------------

  /** The text of a datagram and the address it goes to. */
  datatype Datagram = Datagram(text: seq<byte>, to: Ip)

  /** `newId` is the id in the join response; `broadcast` goes to all nodes. */
  datatype Answer = Answer(reply: Option<Datagram>, newId: int, broadcast: Option<seq<byte>>, masterAt: Option<Peer>)

  const SILENCE := Answer(None, 0, None, None)

  /** What a node says of itself. */
  datatype Self = Self(isMaster: bool, ip: Ip, port: uint16, chunks: uint32)

  /** A discovery that is not this node's own, at the master. */
  predicate Answered(text: Text, me: Self) {
    var p := Scan(text, DiscoverTag());
    p.Some? && me.isMaster && !(p.value.ip == me.ip && p.value.port == me.port)
  }

  /** The sender is in the table with this socket, and is told its id and
      everybody the new table; or the table is full and nobody is told anything. */
  ghost predicate Joined(t: seq<Node>, u: seq<Node>, p: Peer, fd: int, now: int, newId: int, broadcast: Option<seq<byte>>) {
    |u| <= MAX_NODES && exists id ::
      && Added(t, u, p.ip, p.port % 0x1_0000, p.chunks % 0x1_0000_0000, ROLE_WORKER, fd, now, id)
      && newId == (if id > 0 then id else 0)
      && broadcast == if id > 0 then Some(EncodeTable(Infos(u))) else None
  }

  /**
   * One datagram; `fd` is what connecting back to the sender would give.  The
   * reply to a discovery goes to the address in it, and whoever scans it finds
   * this node's own address, port and chunks.
   */
  method HandleDatagram(table: Table, text: Text, me: Self, fd: int, now: int) returns (answer: Answer)
    requires table.Valid()
    modifies table, table.nodes
    ensures table.Valid()
    ensures !(Answered(text, me) && fd >= 0) ==>
              table.View() == old(table.View()) && answer.newId == 0 && answer.broadcast == None
    ensures answer.reply.Some? == Answered(text, me)
    ensures var p := Scan(text, DiscoverTag());
            me.isMaster && p.Some? && (p.value.ip != me.ip || p.value.port != me.port) ==>
              && answer.reply == Some(Datagram(Print(ReplyTag(), me.ip, me.port, me.chunks), p.value.ip))
              && (fd >= 0 ==> Joined(old(table.View()), table.View(), p.value, fd, now, answer.newId, answer.broadcast))
              && (fd < 0 ==> table.View() == old(table.View()) && answer.newId == 0 && answer.broadcast == None)
    ensures var p := Scan(text, DiscoverTag());
            !me.isMaster || p.None? || (p.value.ip == me.ip && p.value.port == me.port) ==>
              answer.reply == None && answer.newId == 0 && answer.broadcast == None && table.View() == old(table.View())
    ensures answer.reply.Some? ==>
              && answer.reply.value.to == Scan(text, DiscoverTag()).value.ip && 0 !in answer.reply.value.text
              && (me.ip != [] && SLASH !in me.ip ==>
                    && Scan(answer.reply.value.text, ReplyTag()) == Some(Peer(me.ip, me.port, me.chunks))
                    && Scan(answer.reply.value.text, DiscoverTag()) == None)
    ensures Answered(text, me) && fd >= 0 ==>
              var p := Scan(text, DiscoverTag()).value;
              var (t, id) := OnAdd(old(table.View()), p.ip, p.port % 0x1_0000, p.chunks % 0x1_0000_0000, ROLE_WORKER, fd, now);
              && table.View() == t && answer.newId == (if id > 0 then id else 0)
              && answer.broadcast == if id > 0 then Some(EncodeTable(Infos(t))) else None
    ensures answer.masterAt == if Scan(text, DiscoverTag()) == None then Scan(text, ReplyTag()) else None
  {
    answer := SILENCE;
    var discovered := Scan(text, DiscoverTag());
    if discovered.Some? {
      var p := discovered.value;
      if p.ip == me.ip && p.port == me.port {
        return;
      }
      if me.isMaster {
        answer := answer.(reply := Some(Datagram(Print(ReplyTag(), me.ip, me.port, me.chunks), p.ip)));
        TagsAreText();
        ReplyScans(me);
        if fd >= 0 {
          var id := table.Add(p.ip, p.port % 0x1_0000, p.chunks % 0x1_0000_0000, ROLE_WORKER, fd, now);
          if id > 0 {
            var message := table.Serialize(BUFFER_SIZE);
            answer := answer.(newId := id, broadcast := message);
          }
        }
      }
    } else {
      answer := answer.(masterAt := Scan(text, ReplyTag()));
    }
  }

  lemma ReplyScans(me: Self)
    ensures var text := Print(ReplyTag(), me.ip, me.port, me.chunks);
            && 0 !in text
            && (me.ip != [] && SLASH !in me.ip ==>
                  Scan(text, ReplyTag()) == Some(Peer(me.ip, me.port, me.chunks)) && Scan(text, DiscoverTag()) == None)
  {
    TagsAreText();
    PrintIsText(ReplyTag(), me.ip, me.port, me.chunks);
    if me.ip != [] && SLASH !in me.ip {
      PrintScan(ReplyTag(), me.ip, me.port, me.chunks);
      TagsExclusive(Print(ReplyTag(), me.ip, me.port, me.chunks));
    }
  }
}
