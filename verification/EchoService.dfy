/**
 The raw UDP echo service: the server's handling of one received datagram and the client's
 filter for replies, on the datagrams of module Datagram.
 */
module EchoService {
  import opened Checksum
  import opened Datagram
  import opened ClientTable
  import opened Decimal

  // ----- parsing -----

  datatype Received = Received(src: Address, dst: Address, source: uint16, dest: uint16, data: seq<byte>)

  /** The receive buffer after recvfrom: the first `recvLen` bytes are what came, the others what
      it held before.  The length in the UDP header is believed even beyond what came; assumed
      is only that it does not lead out of the buffer. */
  predicate Readable(buf: seq<byte>, recvLen: nat) {
    && IP_SIZE <= |buf| && recvLen <= |buf|
    && (buf[9] == IPPROTO_UDP && recvLen >= HeaderLength(buf) + UDP_SIZE ==>
          HeaderLength(buf) + UdpLength(buf) <= |buf|)
  }

  function UdpLength(buf: seq<byte>): nat
    requires |buf| > 0 && |buf| >= HeaderLength(buf) + UDP_SIZE
  {
    Number(buf[HeaderLength(buf) + 4], buf[HeaderLength(buf) + 5])
  }

  /** The tests that server and client share: protocol, received length, UDP length. */
  function Parse(buf: seq<byte>, recvLen: nat): Option<Received>
    requires Readable(buf, recvLen)
  {
    var hdr := HeaderLength(buf);
    if buf[9] != IPPROTO_UDP || recvLen < hdr + UDP_SIZE || UdpLength(buf) < UDP_SIZE then None
    else Some(Received(buf[12..16], buf[16..20],
                       Number(buf[hdr], buf[hdr + 1]), Number(buf[hdr + 2], buf[hdr + 3]),
                       buf[hdr + UDP_SIZE..hdr + UdpLength(buf)]))
  }

  /** The datagrams the server's main loop does not skip. */
  function ServerAccepts(buf: seq<byte>, recvLen: nat): Option<Received>
    requires Readable(buf, recvLen)
  {
    var r := Parse(buf, recvLen);
    if r.Some? && r.value.dest == SERVER_PORT then r else None
  }

  /** What the client prints: the data of the first datagram its filter lets through. */
  function ClientAccepts(buf: seq<byte>, recvLen: nat, clientPort: uint16): Option<seq<byte>>
    requires Readable(buf, recvLen)
  {
    var r := Parse(buf, recvLen);
    if r.Some? && r.value.dest == clientPort && r.value.source == SERVER_PORT then Some(r.value.data) else None
  }

  /** The receive buffer after datagram p came into it. */
  function Into(buffer: seq<byte>, p: seq<byte>): (buf: seq<byte>)
    requires |p| <= |buffer|
    ensures |buf| == |buffer| && buf[..|p|] == p
  {
    p + buffer[|p|..]
  }

  /** A datagram with all the data its UDP header announces is parsed alike whatever the rest
      of the buffer holds. */
  lemma LeftoversDoNotMatter(buffer: seq<byte>, p: seq<byte>)
    requires |p| <= |buffer| && Readable(p, |p|)
    ensures Readable(Into(buffer, p), |p|) && Parse(Into(buffer, p), |p|) == Parse(p, |p|)
  {
    var buf := Into(buffer, p);
    assert forall i :: 0 <= i < |p| ==> buf[i] == p[i];
    assert buf[12..16] == p[12..16] && buf[16..20] == p[16..20];
    if p[9] == IPPROTO_UDP && |p| >= HeaderLength(p) + UDP_SIZE {
      assert UdpLength(buf) == UdpLength(p);
      if UdpLength(p) >= UDP_SIZE {
        var hdr := HeaderLength(p);
        assert buf[hdr + UDP_SIZE..hdr + UdpLength(p)] == p[hdr + UDP_SIZE..hdr + UdpLength(p)];
      }
    }
  }

  // ----- requests and replies -----

  /** The bytes of an ASCII text. */
  function Ascii(s: string): (b: seq<byte>)
    requires forall i :: 0 <= i < |s| ==> s[i] < 128 as char
    ensures |b| == |s|
  {
    seq(|s|, i requires 0 <= i < |s| => s[i] as int)
  }

  function ShowBytes(n: nat): (b: seq<byte>)
    ensures |b| > 0
  {
    Ascii(ShowNat(n))
  }

  const SHUTDOWN: seq<byte> := Ascii("SHUTDOWN")
  const SPACE: byte := 32

  /** A C string's contents: the bytes before the first NUL. */
  function UpToNul(data: seq<byte>): (s: seq<byte>)
    ensures |s| <= |data| && s == data[..|s|] && 0 !in s
    ensures |s| < |data| ==> data[|s|] == 0
  {
    if data == [] || data[0] == 0 then [] else [data[0]] + UpToNul(data[1..])
  }

  /** snprintf(response, sizeof(response), "%.*s %d", ...). */
  function Response(data: seq<byte>, counter: nat): seq<byte> {
    var text := UpToNul(data) + [SPACE] + ShowBytes(counter);
    if |text| >= BUFFER_SIZE then text[..BUFFER_SIZE - 1] else text
  }

  function Request(id: uint16, server: Address, clientPort: uint16, payload: seq<byte>): seq<byte> {
    Packet(id, LOOPBACK, server, clientPort, SERVER_PORT, payload)
  }

  function Reply(id: uint16, r: Received, counter: nat): seq<byte> {
    Packet(id, r.dst, r.src, SERVER_PORT, r.source, Response(r.data, counter))
  }

  function AddressValue(a: Address): uint32 {
    Word(a[0], a[1]) as int + 0x1_0000 * Word(a[2], a[3]) as int
  }

  function EventOf(r: Received): Event {
    Event(Key(AddressValue(r.src), r.source), r.data == SHUTDOWN)
  }

  /** What the server hands to sendto for a datagram.  `Overlong` stands for a reply that does
      not fit the send buffer. */
  datatype Answer = Skipped | Silent(verdict: Verdict) | Overlong | Sent(bytes: seq<byte>)

  function AnswerFor(id: uint16, r: Received, counter: nat): Answer {
    if IP_SIZE + UDP_SIZE + |Response(r.data, counter)| > BUFFER_SIZE then Overlong
    else
      SentWholeIff(id, r.dst, r.src, SERVER_PORT, r.source, Response(r.data, counter));
      Sent(OnWire(Reply(id, r, counter)))
  }

  class Server {
    const table: Clients

    constructor (blank: Entry)
      ensures fresh(table) && fresh(table.clients) && table.Valid() && table.Contents() == []
    {
      table := new Clients(blank);
    }

    /** One iteration of the server's main loop. */
    method Receive(buf: seq<byte>, recvLen: nat, id: uint16) returns (answer: Answer)
      requires Readable(buf, recvLen) && table.Valid()
      modifies table`numClients, table.clients
      ensures table.Valid()
      ensures var request := ServerAccepts(buf, recvLen);
        if request.None? then answer == Skipped && table.Contents() == old(table.Contents())
        else
          var verdict := TableVerdict(old(table.Contents()), EventOf(request.value));
          && table.Contents() == TableStep(old(table.Contents()), EventOf(request.value))
          && (!verdict.Counted? ==> answer == Silent(verdict))
          && (verdict.Counted? ==> answer == AnswerFor(id, request.value, verdict.n))
    {
      var request := ServerAccepts(buf, recvLen);
      if request.None? {
        return Skipped;
      }
      var verdict := table.Handle(EventOf(request.value));
      if !verdict.Counted? {
        return Silent(verdict);
      }
      var response := Response(request.value.data, verdict.n);
      if IP_SIZE + UDP_SIZE + |response| > BUFFER_SIZE {
        return Overlong;
      }
      var r := request.value;
      var _, sent := BuildPacket(id, r.dst, r.src, SERVER_PORT, r.source, response);
      return Sent(sent);
    }
  }

  // ----- what the bytes of a reply and the keys of the table mean -----

  /** The number a sequence of ASCII digits denotes. */
  function Decimal10(digits: seq<byte>): int {
    if digits == [] then 0 else 10 * Decimal10(digits[..|digits| - 1]) + (digits[|digits| - 1] as int - 48)
  }

  lemma {:induction false} AsciiDigits(n: nat)
    ensures Decimal10(ShowBytes(n)) == n
    ensures forall i :: 0 <= i < |ShowBytes(n)| ==> 48 <= ShowBytes(n)[i] <= 57
  {
    var digits := ShowBytes(n);
    assert digits[..|digits| - 1] == if n < 10 then [] else ShowBytes(n / 10);
    assert digits[|digits| - 1] == 48 + n % 10;
    if n >= 10 {
      AsciiDigits(n / 10);
    }
    assert digits == digits[..|digits| - 1] + [digits[|digits| - 1]];
  }

  /** The counter stands in a reply as ASCII digits; and SHUTDOWN is that word in ASCII. */
  lemma TextIsAscii(data: seq<byte>, counter: nat)
    requires 0 !in data && |data| + 1 + |ShowBytes(counter)| < BUFFER_SIZE
    ensures var reply := Response(data, counter);
      && reply[..|data|] == data && |reply| > |data| + 1 && reply[|data|] == 32
      && (forall i :: |data| < i < |reply| ==> 48 <= reply[i] <= 57) && Decimal10(reply[|data| + 1..]) == counter
    ensures SHUTDOWN == [83, 72, 85, 84, 68, 79, 87, 78]
  {
    hide ShowBytes, Decimal10;
    AsciiDigits(counter);
    assert Response(data, counter)[|data| + 1..] == ShowBytes(counter);
  }

  /** The response is what fits the buffer of the data up to a NUL, a space and the counter. */
  lemma ResponseIsCut(data: seq<byte>, counter: nat)
    ensures var text := UpToNul(data) + [32] + ShowBytes(counter);
      && Response(data, counter) <= text
      && |Response(data, counter)| == if |text| <= 65535 then |text| else 65535
  {
    hide ShowBytes, UpToNul;
  }

  /** Clients with different addresses or ports have different keys. */
  lemma KeyIsClient(r: Received, r': Received)
    ensures EventOf(r).key == EventOf(r').key <==> r.src == r'.src && r.source == r'.source
  {
    var a, b := r.src, r'.src;
    if AddressValue(a) == AddressValue(b) {
      hide Word;
      HalvesDiffer(Word(a[0], a[1]), Word(a[2], a[3]), Word(b[0], b[1]), Word(b[2], b[3]));
      BytesDiffer(a[0], a[1], b[0], b[1]);
      BytesDiffer(a[2], a[3], b[2], b[3]);
      assert a == [a[0], a[1], a[2], a[3]] == b;
    }
  }

  lemma BytesDiffer(a: byte, b: byte, c: byte, d: byte)
    requires Word(a, b) == Word(c, d)
    ensures a == c && b == d
  {
  }

  lemma HalvesDiffer(a: uint16, b: uint16, c: uint16, d: uint16)
    requires a as int + 0x1_0000 * b as int == c as int + 0x1_0000 * d as int
    ensures a == c && b == d
  {
  }

  // ----- the round trip -----

  lemma ReplyFits(payload: seq<byte>, counter: nat)
    requires 0 !in payload && |payload| + 1 + |ShowBytes(counter)| <= MAX_DATA
    ensures Response(payload, counter) == payload + [SPACE] + ShowBytes(counter)
  {
  }

  /** What the tests make of any bytes received: a datagram is taken exactly if it is UDP, its
      headers are there and its UDP length covers the UDP header; and then as these fields. */
  lemma ParseMeans(buf: seq<byte>, recvLen: nat)
    requires Readable(buf, recvLen)
    ensures var h := buf[0] % 16 * 4;
      && (Parse(buf, recvLen).Some? <==>
            buf[9] == 17 && recvLen >= h + 8 && Number(buf[h + 4], buf[h + 5]) >= 8)
      && (Parse(buf, recvLen).Some? ==>
            var r := Parse(buf, recvLen).value;
            && r.src == buf[12..16] && r.dst == buf[16..20]
            && r.source == Number(buf[h], buf[h + 1]) && r.dest == Number(buf[h + 2], buf[h + 3])
            && |r.data| == Number(buf[h + 4], buf[h + 5]) - 8
            && forall i :: 0 <= i < |r.data| ==> r.data[i] == buf[h + 8 + i])
  {
    hide Number;
  }

  lemma ParseFields(p: seq<byte>, id: uint16, r: Received)
    requires HasFields(p, id, r.src, r.dst, r.source, r.dest, r.data)
    ensures Readable(p, |p|) && Parse(p, |p|) == Some(r) && Number(p[2], p[3]) == |p|
  {
    hide Number;
    assert p[28..28 + |r.data|] == p[28..];
  }

  /** Parsing a datagram gives back exactly the fields and the data it was built from; and its
      total length field, which is what sendto is told to send, is its length. */
  lemma ParsePacket(id: uint16, src: Address, dst: Address, source: uint16, dest: uint16, data: seq<byte>)
    requires |data| <= MAX_DATA
    ensures var p := Packet(id, src, dst, source, dest, data);
      && Readable(p, |p|) && Parse(p, |p|) == Some(Received(src, dst, source, dest, data))
      && Number(p[2], p[3]) == |p| && OnWire(p) == p
  {
    hide Packet, HasFields, Parse, Readable;
    WireFormat(id, src, dst, source, dest, data);
    ParseFields(Packet(id, src, dst, source, dest, data), id, Received(src, dst, source, dest, data));
    SentWholeIff(id, src, dst, source, dest, data);
  }

  /** Both filters are exact: of all datagrams the server takes those for its port, the client
      those from the server's port to its own. */
  lemma FiltersAreExact(id: uint16, r: Received, clientPort: uint16)
    requires |r.data| <= MAX_DATA
    ensures var p := Packet(id, r.src, r.dst, r.source, r.dest, r.data);
      && Readable(p, |p|)
      && ServerAccepts(p, |p|) == (if r.dest == 8888 then Some(r) else None)
      && ClientAccepts(p, |p|, clientPort) ==
         (if r.dest == clientPort && r.source == 8888 then Some(r.data) else None)
  {
    hide Packet, Parse;
    ParsePacket(id, r.src, r.dst, r.source, r.dest, r.data);
  }

  lemma ServerParsesRequest(id: uint16, server: Address, clientPort: uint16, payload: seq<byte>)
    requires |payload| <= MAX_DATA
    ensures var request := Request(id, server, clientPort, payload);
      && Readable(request, |request|)
      && ServerAccepts(request, |request|) == Some(Received(LOOPBACK, server, clientPort, SERVER_PORT, payload))
  {
    ParsePacket(id, LOOPBACK, server, clientPort, SERVER_PORT, payload);
  }

  /** The server parses exactly the client's payload and port; its reply goes back from the
      server's address to the client's, passes the client's filter and carries the payload, a
      space and the counter in decimal. */
  lemma RoundTrip(id: uint16, id': uint16, server: Address, clientPort: uint16, payload: seq<byte>, counter: nat)
    requires 0 !in payload && |payload| + 1 + |ShowBytes(counter)| <= MAX_DATA
    ensures var request := Request(id, server, clientPort, payload);
      && Readable(request, |request|)
      && ServerAccepts(request, |request|) == Some(Received(LOOPBACK, server, clientPort, SERVER_PORT, payload))
    ensures var reply := Reply(id', Received(LOOPBACK, server, clientPort, SERVER_PORT, payload), counter);
      && Readable(reply, |reply|)
      && Parse(reply, |reply|) 
         == Some(Received(server, LOOPBACK, SERVER_PORT, clientPort, payload + [SPACE] + ShowBytes(counter)))
      && ClientAccepts(reply, |reply|, clientPort) == Some(payload + [SPACE] + ShowBytes(counter))
  {
    hide Response, Packet, Parse, Readable, ShowBytes;
    ServerParsesRequest(id, server, clientPort, payload);
    ReplyFits(payload, counter);
    ParsePacket(id', server, LOOPBACK, SERVER_PORT, clientPort, Response(payload, counter));
  }

  /** A raw socket also delivers a program's own datagrams.  The client never takes its own
      request for a reply, and the server never takes its own reply for a request, exactly
      when the client's port is not the server's. */
  lemma OwnDatagramsAreSkipped(id: uint16, server: Address, clientPort: uint16, payload: seq<byte>,
                               r: Received, counter: nat)
    requires |payload| <= MAX_DATA && |Response(r.data, counter)| <= MAX_DATA && r.source == clientPort
    ensures var request := Request(id, server, clientPort, payload);
      && Readable(request, |request|)
      && (ClientAccepts(request, |request|, clientPort) == None <==> clientPort != SERVER_PORT)
    ensures var reply := Reply(id, r, counter);
      Readable(reply, |reply|) && (ServerAccepts(reply, |reply|) == None <==> clientPort != SERVER_PORT)
  {
    ParsePacket(id, LOOPBACK, server, clientPort, SERVER_PORT, payload);
    ParsePacket(id, r.dst, r.src, SERVER_PORT, r.source, Response(r.data, counter));
  }

  lemma SpaceInLonger(p: seq<byte>, a: seq<byte>, p': seq<byte>, b: seq<byte>)
    requires p + [SPACE] + a == p' + [SPACE] + b && |a| < |b|
    ensures SPACE in b
  {
    assert (p' + [SPACE] + b)[|p|] == b[|p| - |p'| - 1];
  }

  /** A reply determines the payload and the counter: the counter is what follows the last space. */
  lemma ReplyDeterminesPayloadAndCounter(p: seq<byte>, n: nat, p': seq<byte>, n': nat)
    requires p + [SPACE] + ShowBytes(n) == p' + [SPACE] + ShowBytes(n')
    ensures p == p' && n == n'
  {
    var a, b := ShowBytes(n), ShowBytes(n');
    if |a| < |b| {
      SpaceInLonger(p, a, p', b);
    } else if |b| < |a| {
      SpaceInLonger(p', b, p, a);
    } else {
      var whole := p + [SPACE] + a;
      assert p == whole[..|p|] == p' && a == whole[|p| + 1..] == b;
      forall i | 0 <= i < |ShowNat(n)|
        ensures ShowNat(n)[i] == ShowNat(n')[i]
      {
        assert a[i] == b[i];
      }
      assert ShowNat(n) == ShowNat(n');
      NatOfShow(n);
      NatOfShow(n');
    }
  }

  /** `send_shutdown` makes the server forget the client, whatever it has counted; and no
      other payload does. */
  lemma ShutdownRemovesClient(id: uint16, server: Address, clientPort: uint16, payload: seq<byte>, t: seq<Entry>)
    requires |payload| <= MAX_DATA && Unique(t) && |t| <= MAX_CLIENTS
    ensures var request := Request(id, server, clientPort, payload);
      Readable(request, |request|) && ServerAccepts(request, |request|).Some?
    ensures var request := Request(id, server, clientPort, payload);
      var e := EventOf(ServerAccepts(request, |request|).value);
      && e.key == Key(AddressValue(LOOPBACK), clientPort)
      && (payload == SHUTDOWN ==> AsMap(TableStep(t, e)) == AsMap(t) - {e.key})
      && (payload != SHUTDOWN ==> TableVerdict(t, e) != Removed)
  {
    ServerParsesRequest(id, server, clientPort, payload);
    ShutdownForgets(t, Key(AddressValue(LOOPBACK), clientPort));
  }

  /** One exchange: the client builds its request, the server receives it and answers, and the
      client filters what its raw socket delivers - its own request and then the reply.  It
      prints the payload and the number of its requests counted so far, whatever the receive
      buffers of both held before. */
  method Exchange(server: Server, address: Address, clientPort: uint16, payload: seq<byte>, id: uint16, id': uint16,
                  serverBuffer: seq<byte>, clientBuffer: seq<byte>)
    returns (printed: seq<byte>)
    requires server.table.Valid() && clientPort != SERVER_PORT
    requires |serverBuffer| == |clientBuffer| == BUFFER_SIZE
    requires 0 !in payload && payload != SHUTDOWN && |payload| <= MAX_DATA
    requires var k := Key(AddressValue(LOOPBACK), clientPort);
      && (Has(server.table.Contents(), k) || server.table.numClients < MAX_CLIENTS)
      && |payload| + 1 + |ShowBytes(CounterOf(server.table.Contents(), k) + 1)| <= MAX_DATA
    modifies server.table`numClients, server.table.clients
    ensures server.table.Valid()
    ensures var k := Key(AddressValue(LOOPBACK), clientPort);
      && printed == payload + [SPACE] + ShowBytes(CounterOf(old(server.table.Contents()), k) + 1)
      && server.table.Contents() == TableStep(old(server.table.Contents()), Event(k, false))
  {
    hide Parse, Readable, Packet, Response, TableStep, CounterOf, Has, Unique, InternetChecksum, Into, OnWire;
    ghost var counter := CounterOf(server.table.Contents(), Key(AddressValue(LOOPBACK), clientPort)) + 1;
    RoundTrip(id, id', address, clientPort, payload, counter);
    ghost var r := Received(LOOPBACK, address, clientPort, SERVER_PORT, payload);
    ReplyFits(payload, counter);
    OwnDatagramsAreSkipped(id, address, clientPort, payload, r, counter);
    var sendBuf, request := BuildPacket(id, LOOPBACK, address, clientPort, SERVER_PORT, payload);
    ParsePacket(id, LOOPBACK, address, clientPort, SERVER_PORT, payload);
    ParsePacket(id', address, LOOPBACK, SERVER_PORT, clientPort, Response(payload, counter));
    LeftoversDoNotMatter(serverBuffer, request);
    var answer := server.Receive(Into(serverBuffer, request), |request|, id');
    printed := [];
    var delivered, buffer := [request, answer.bytes], clientBuffer;
    for i := 0 to 2
      invariant i < 2 && |buffer| == BUFFER_SIZE
      modifies {}
    {
      LeftoversDoNotMatter(buffer, delivered[i]);
      buffer := Into(buffer, delivered[i]);
      var data := ClientAccepts(buffer, |delivered[i]|, clientPort);
      if data.Some? {
        return data.value;
      }
    }
  }
}
