/**
 The datagrams of the echo service: how client and server build them byte by byte and how
 they parse what they receive.  Memory is little-endian; headers are laid out as in
 section 3.1 of RFC 791 and in RFC 768.
 */
module Datagram {
  import opened Checksum

  const SERVER_PORT: uint16 := 8888
  const BUFFER_SIZE := 65536
  const IPPROTO_UDP: byte := 17
  const IP_SIZE := 20
  const UDP_SIZE := 8

  /** An IPv4 address as its four bytes in memory. */
  type Address = a: seq<byte> | |a| == 4 witness [0, 0, 0, 0]

  const LOOPBACK: Address := [127, 0, 0, 1]

  /** The conversion of an int to uint16_t. */
  function U16(x: nat): uint16 {
    x % 0x1_0000
  }

  /** The number two bytes denote in network order, the more significant one first. */
  function Number(most: byte, least: byte): uint16 {
    0x100 * (most as int) + (least as int)
  }

  /** On a little-endian host, storing htons(x) puts the more significant byte first, and ntohs
      of a loaded field is the number in network order; htons and ntohs swap the bytes. */
  lemma HtonsStores(x: uint16)
    ensures Low(Swap16(x)) == High(x) && High(Swap16(x)) == Low(x)
  {
  }

  lemma NtohsLoads(most: byte, least: byte)
    ensures Swap16(Word(most, least)) == Number(most, least)
  {
  }

  lemma NumberOfBytes(x: uint16)
    ensures Number(High(x), Low(x)) == x
  {
  }

  // ----- headers and their checksums as values -----

  /** The bytes of an IPv4 header without options, check field zero; `id` is the field as it
      stands in memory, htons of a random number. */
  function IpBytes(total: uint16, id: uint16, src: Address, dst: Address): (h: seq<byte>)
    ensures |h| == IP_SIZE && h[0] == 0x45 && h[9] == IPPROTO_UDP && h[12..16] == src && h[16..20] == dst
  {
    [0x45, 0, High(total), Low(total), Low(id), High(id), 0, 0, 64, IPPROTO_UDP, 0, 0,
     src[0], src[1], src[2], src[3], dst[0], dst[1], dst[2], dst[3]]
  }

  function UdpBytes(source: uint16, dest: uint16, length: uint16): (h: seq<byte>)
    ensures |h| == UDP_SIZE
  {
    [High(source), Low(source), High(dest), Low(dest), High(length), Low(length), 0, 0]
  }

  function IpHeader(id: uint16, dataLen: nat, src: Address, dst: Address): (h: seq<byte>)
    ensures |h| == IP_SIZE
  {
    IpBytes(U16(IP_SIZE + UDP_SIZE + dataLen), id, src, dst)
  }

  function UdpHeader(source: uint16, dest: uint16, dataLen: nat): (h: seq<byte>)
    ensures |h| == UDP_SIZE
  {
    UdpBytes(source, dest, U16(UDP_SIZE + dataLen))
  }

  /** The length of an IP header in bytes, from its ihl field. */
  function HeaderLength(ip: seq<byte>): nat
    requires |ip| > 0
  {
    ip[0] % 16 * 4
  }

  function Pseudo(ip: seq<byte>, dataLen: nat): (p: seq<byte>)
    requires |ip| >= IP_SIZE
    ensures |p| == 12
  {
    var length := U16(UDP_SIZE + dataLen);
    ip[12..16] + ip[16..20] + [0, ip[9], High(length), Low(length)]
  }

  /** The data of a datagram whose length fits its total length field. */
  const MAX_DATA := 0xffff - IP_SIZE - UDP_SIZE

  /** What compute_udp_checksum can be given: with pseudo-header and header 131074 bytes. */
  const MAX_CHECKED := 131054

  const IP_CHECK := 10
  const UDP_CHECK := 6

  function WithIpCheck(ip: seq<byte>): (h: seq<byte>)
    requires |ip| > 0 && IP_CHECK + 1 < HeaderLength(ip) <= |ip|
    ensures |h| == |ip|
  {
    Store(ip, IP_CHECK, InternetChecksum(Store(ip, IP_CHECK, 0)[..HeaderLength(ip)]))
  }

  function WithUdpCheck(ip: seq<byte>, udp: seq<byte>, data: seq<byte>): (h: seq<byte>)
    requires |ip| >= IP_SIZE && |udp| == UDP_SIZE
    ensures |h| == UDP_SIZE
  {
    Store(udp, UDP_CHECK, InternetChecksum(Pseudo(ip, |data|) + Store(udp, UDP_CHECK, 0) + data))
  }

  /** A header with its computed check field has checksum zero: what a receiver tests. */
  lemma IpCheckVerifies(ip: seq<byte>)
    requires |ip| > 0 && IP_CHECK + 1 < HeaderLength(ip) <= |ip|
    ensures HeaderLength(WithIpCheck(ip)) == HeaderLength(ip)
    ensures InternetChecksum(WithIpCheck(ip)[..HeaderLength(ip)]) == 0
  {
    var header := ip[..HeaderLength(ip)];
    assert Store(ip, IP_CHECK, 0)[..HeaderLength(ip)] == Store(header, IP_CHECK, 0);
    StoredChecksumVerifies(header, IP_CHECK);
    assert WithIpCheck(ip)[..HeaderLength(ip)] == Store(header, IP_CHECK, InternetChecksum(Store(header, IP_CHECK, 0)));
  }

  lemma StoreInMiddle(a: seq<byte>, b: seq<byte>, c: seq<byte>, at: nat, x: uint16)
    requires at + 1 < |b|
    ensures Store(a + b + c, |a| + at, x) == a + Store(b, at, x) + c
  {
  }

  /** Pseudo-header, UDP header with its computed check field, and data of any length, even
      or odd, have checksum zero. */
  lemma UdpCheckVerifies(ip: seq<byte>, udp: seq<byte>, data: seq<byte>)
    requires |ip| >= IP_SIZE && |udp| == UDP_SIZE
    ensures InternetChecksum(Pseudo(ip, |data|) + WithUdpCheck(ip, udp, data) + data) == 0
  {
    hide InternetChecksum, Pseudo;
    var pseudo := Pseudo(ip, |data|);
    var check := InternetChecksum(pseudo + Store(udp, UDP_CHECK, 0) + data);
    StoreInMiddle(pseudo, udp, data, UDP_CHECK, 0);
    StoreInMiddle(pseudo, udp, data, UDP_CHECK, check);
    StoredChecksumVerifies(pseudo + udp + data, |pseudo| + UDP_CHECK);
  }

  /** A whole datagram, as client and server both send it. */
  function Packet(id: uint16, src: Address, dst: Address, source: uint16, dest: uint16, data: seq<byte>): (p: seq<byte>)
    ensures |p| == IP_SIZE + UDP_SIZE + |data|
  {
    var ip := WithIpCheck(IpHeader(id, |data|, src, dst));
    ip + WithUdpCheck(ip, UdpHeader(source, dest, |data|), data) + data
  }

  lemma PacketIs(id: uint16, src: Address, dst: Address, source: uint16, dest: uint16, data: seq<byte>)
    ensures var ip := WithIpCheck(IpHeader(id, |data|, src, dst));
      Packet(id, src, dst, source, dest, data)
      == ip + WithUdpCheck(ip, UdpHeader(source, dest, |data|), data) + data
  {
  }

  lemma PacketBytes(id: uint16, src: Address, dst: Address, source: uint16, dest: uint16, data: seq<byte>)
    ensures var p, ip := Packet(id, src, dst, source, dest, data), IpHeader(id, |data|, src, dst);
      var udp := UdpHeader(source, dest, |data|);
      && p[..IP_SIZE] == WithIpCheck(ip)
      && p[IP_SIZE..IP_SIZE + UDP_SIZE] == WithUdpCheck(WithIpCheck(ip), udp, data)
      && p[IP_SIZE + UDP_SIZE..] == data
      && (forall i :: 0 <= i < IP_CHECK || IP_CHECK + 2 <= i < IP_SIZE ==> p[i] == ip[i])
      && (forall i :: 0 <= i < UDP_CHECK ==> p[IP_SIZE + i] == udp[i])
  {
    hide InternetChecksum, IpHeader, UdpHeader, Pseudo;
  }

  /** The fields of a datagram as RFC 791 and RFC 768 number its bytes, most significant first. */
  predicate HasFields(p: seq<byte>, id: uint16, src: Address, dst: Address, source: uint16, dest: uint16,
                      data: seq<byte>)
  {
    && |p| == IP_SIZE + UDP_SIZE + |data|
    && p[0] == 0x45 && p[1] == 0 && Number(p[2], p[3]) == |p|
    && Number(p[5], p[4]) == id && p[6] == p[7] == 0 && p[8] == 64 && p[9] == 17
    && p[12..16] == src && p[16..20] == dst
    && Number(p[20], p[21]) == source && Number(p[22], p[23]) == dest
    && Number(p[24], p[25]) == UDP_SIZE + |data| && p[28..] == data
  }

  /** Both checksums as a receiver tests them, the second over the pseudo-header it makes from
      the addresses, the protocol and the UDP length it has received. */
  predicate ChecksOut(p: seq<byte>)
    requires |p| >= IP_SIZE + UDP_SIZE
  {
    && InternetChecksum(p[..20]) == 0
    && InternetChecksum(p[12..20] + [0, p[9]] + p[24..26] + p[20..]) == 0
  }

  /** Every datagram built carries its fields where the standards put them, and a receiver
      finds both of its checksums right. */
  lemma WireFormat(id: uint16, src: Address, dst: Address, source: uint16, dest: uint16, data: seq<byte>)
    requires |data| <= MAX_DATA
    ensures HasFields(Packet(id, src, dst, source, dest, data), id, src, dst, source, dest, data)
    ensures ChecksOut(Packet(id, src, dst, source, dest, data))
  {
    hide HasFields, ChecksOut, Packet, IpBytes, UdpBytes, Number, Low, High;
    var p, ip := Packet(id, src, dst, source, dest, data), IpHeader(id, |data|, src, dst);
    var udp := UdpHeader(source, dest, |data|);
    PacketBytes(id, src, dst, source, dest, data);
    IpFields(id, U16(|p|), src, dst);
    UdpFields(source, dest, U16(UDP_SIZE + |data|));
    FieldsOnWire(p, ip, udp, id, src, dst, source, dest, data);
    ChecksOnWire(p, ip, udp, data);
  }

  lemma IpFields(id: uint16, total: uint16, src: Address, dst: Address)
    ensures var h := IpBytes(total, id, src, dst);
      && h[0] == 0x45 && h[1] == 0 && Number(h[2], h[3]) == total && Number(h[5], h[4]) == id
      && h[6] == h[7] == 0 && h[8] == 64 && h[9] == 17
  {
    NumberOfBytes(total);
    NumberOfBytes(id);
    hide Low, High, Number;
  }

  lemma UdpFields(source: uint16, dest: uint16, length: uint16)
    ensures var h := UdpBytes(source, dest, length);
      && Number(h[0], h[1]) == source && Number(h[2], h[3]) == dest && Number(h[4], h[5]) == length
      && h[4] == High(length) && h[5] == Low(length)
  {
    NumberOfBytes(source);
    NumberOfBytes(dest);
    NumberOfBytes(length);
    hide Low, High, Number;
  }

  lemma FieldsOnWire(p: seq<byte>, ip: seq<byte>, udp: seq<byte>,
                     id: uint16, src: Address, dst: Address, source: uint16, dest: uint16, data: seq<byte>)
    requires |p| == IP_SIZE + UDP_SIZE + |data| && |ip| == IP_SIZE && |udp| == UDP_SIZE
    requires p[IP_SIZE + UDP_SIZE..] == data && ip[12..16] == src && ip[16..20] == dst
    requires forall i :: 0 <= i < IP_CHECK || IP_CHECK + 2 <= i < IP_SIZE ==> p[i] == ip[i]
    requires forall i :: 0 <= i < UDP_CHECK ==> p[IP_SIZE + i] == udp[i]
    requires ip[0] == 0x45 && ip[1] == 0 && Number(ip[2], ip[3]) == |p| && Number(ip[5], ip[4]) == id
    requires ip[6] == ip[7] == 0 && ip[8] == 64 && ip[9] == 17
    requires Number(udp[0], udp[1]) == source && Number(udp[2], udp[3]) == dest
    requires Number(udp[4], udp[5]) == UDP_SIZE + |data|
    ensures HasFields(p, id, src, dst, source, dest, data)
  {
    assert p[12..16] == ip[12..16] && p[16..20] == ip[16..20];
    assert p[20] == udp[0] && p[21] == udp[1] && p[22] == udp[2] && p[23] == udp[3];
    assert p[24] == udp[4] && p[25] == udp[5];
  }

  lemma ChecksOnWire(p: seq<byte>, ip: seq<byte>, udp: seq<byte>, data: seq<byte>)
    requires |p| == IP_SIZE + UDP_SIZE + |data| && |ip| == IP_SIZE && |udp| == UDP_SIZE && ip[0] == 0x45
    requires p[..IP_SIZE] == WithIpCheck(ip) && p[IP_SIZE + UDP_SIZE..] == data
    requires p[IP_SIZE..IP_SIZE + UDP_SIZE] == WithUdpCheck(p[..IP_SIZE], udp, data)
    requires p[24] == High(U16(UDP_SIZE + |data|)) && p[25] == Low(U16(UDP_SIZE + |data|))
    ensures ChecksOut(p)
  {
    hide InternetChecksum, WithIpCheck, WithUdpCheck, Pseudo, Low, High;
    IpCheckVerifies(ip);
    assert WithIpCheck(ip)[..20] == p[..20];
    UdpCheckVerifies(p[..20], udp, data);
    PseudoOnWire(p, |data|);
    var pseudo := p[12..20] + [0, p[9]] + p[24..26];
    assert p[20..] == p[20..28] + data;
    assert pseudo + (p[20..28] + data) == pseudo + p[20..28] + data;
  }

  lemma PseudoOnWire(p: seq<byte>, dataLen: nat)
    requires |p| >= IP_SIZE + UDP_SIZE
    requires p[24] == High(U16(UDP_SIZE + dataLen)) && p[25] == Low(U16(UDP_SIZE + dataLen))
    ensures Pseudo(p[..20], dataLen) == p[12..20] + [0, p[9]] + p[24..26]
  {
    hide Low, High;
    var ip := p[..20];
    assert ip[12..16] + ip[16..20] == p[12..20] && ip[9] == p[9];
    assert p[24..26] == [p[24], p[25]];
  }

  /** What sendto is told to send of it: as much as the total length field says. */
  function OnWire(p: seq<byte>): seq<byte>
    requires |p| >= IP_SIZE && Number(p[2], p[3]) <= |p|
  {
    p[..Number(p[2], p[3])]
  }

  lemma TotalLength(id: uint16, src: Address, dst: Address, source: uint16, dest: uint16, data: seq<byte>)
    ensures var p := Packet(id, src, dst, source, dest, data);
      Number(p[2], p[3]) == U16(IP_SIZE + UDP_SIZE + |data|)
  {
    hide Packet, Number, Low, High;
    PacketBytes(id, src, dst, source, dest, data);
    NumberOfBytes(U16(IP_SIZE + UDP_SIZE + |data|));
  }

  /** The whole datagram is sent exactly if its length fits the 16-bit field.  The send buffer
      has room for one more byte, and then nothing at all is sent. */
  lemma SentWholeIff(id: uint16, src: Address, dst: Address, source: uint16, dest: uint16, data: seq<byte>)
    requires IP_SIZE + UDP_SIZE + |data| <= BUFFER_SIZE
    ensures var p := Packet(id, src, dst, source, dest, data);
      && Number(p[2], p[3]) <= |p|
      && (OnWire(p) == p <==> |p| <= 0xffff)
      && (OnWire(p) == [] <==> |p| == BUFFER_SIZE)
  {
    TotalLength(id, src, dst, source, dest, data);
    hide Packet, Number;
    var p := Packet(id, src, dst, source, dest, data);
    var sent := Number(p[2], p[3]);
    assert sent == if |p| <= 0xffff then |p| else 0;
    assert p[..|p|] == p;
  }

  // ----- the programs that build them -----

  /** `compute_ip_checksum`. */
  method ComputeIpChecksum(ip: array<byte>)
    requires ip.Length > 0 && IP_CHECK + 1 < HeaderLength(ip[..]) <= ip.Length
    modifies ip
    ensures ip[..] == WithIpCheck(old(ip[..]))
    ensures InternetChecksum(ip[..HeaderLength(old(ip[..]))]) == 0
  {
    ghost var was := ip[..];
    ip[IP_CHECK], ip[IP_CHECK + 1] := 0, 0;
    assert ip[..] == Store(was, IP_CHECK, 0);
    var length := ip[0] % 16 * 4;
    assert ip[..length] == Store(was, IP_CHECK, 0)[..length];
    var check := ComputeChecksum(ip[..length]);
    ip[IP_CHECK], ip[IP_CHECK + 1] := Low(check), High(check);
    assert ip[..] == WithIpCheck(was);
    IpCheckVerifies(was);
    assert ip[..length] == WithIpCheck(was)[..length];
  }

  /** memcpy. */
  method Copy(dst: array<byte>, at: nat, src: seq<byte>)
    requires at + |src| <= dst.Length
    modifies dst
    ensures dst[..] == old(dst[..at]) + src + old(dst[at + |src|..])
  {
    forall i | 0 <= i < |src| {
      dst[at + i] := src[i];
    }
  }

  method InMemory(bytes: seq<byte>) returns (buffer: array<byte>)
    ensures fresh(buffer) && buffer[..] == bytes
  {
    buffer := new byte[|bytes|](i requires 0 <= i < |bytes| => bytes[i]);
  }

  /** The concatenation of three pieces in fresh memory. */
  method Assemble(a: seq<byte>, b: seq<byte>, c: seq<byte>) returns (buffer: array<byte>)
    ensures fresh(buffer) && buffer[..] == a + b + c
  {
    buffer := new byte[|a| + |b| + |c|];
    Copy(buffer, 0, a);
    Copy(buffer, |a|, b);
    assert buffer[..|a| + |b|] == a + b;
    Copy(buffer, |a| + |b|, c);
  }

  /** Storing a uint16_t in memory. */
  method Put16(buf: array<byte>, at: nat, x: uint16)
    requires at + 1 < buf.Length
    modifies buf
    ensures buf[..] == Store(old(buf[..]), at, x)
  {
    buf[at], buf[at + 1] := Low(x), High(x);
  }

  /** `compute_udp_checksum`: the scratch buffer holds pseudo-header, header copy and data. The
      sum is exact for every data length up to 131054; the programs pass at most 65535. */
  method ComputeUdpChecksum(ip: array<byte>, udp: array<byte>, data: seq<byte>)
    requires ip.Length >= IP_SIZE && udp.Length == UDP_SIZE && ip != udp
    requires |data| <= MAX_CHECKED
    modifies udp
    ensures udp[..] == WithUdpCheck(ip[..], old(udp[..]), data)
    ensures InternetChecksum(Pseudo(ip[..], |data|) + udp[..] + data) == 0
  {
    ghost var header, was := ip[..], udp[..];
    var pseudo := Pseudo(ip[..], |data|);
    var buffer := Assemble(pseudo, udp[..], data);
    Put16(buffer, |pseudo| + UDP_CHECK, 0);
    StoreInMiddle(pseudo, was, data, UDP_CHECK, 0);
    var check := ComputeChecksum(buffer[..]);
    Put16(udp, UDP_CHECK, check);
    UdpCheckVerifies(header, was, data);
  }

  /** A header in memory, its fields assigned and then its check field computed. */
  method BuildIpHeader(id: uint16, dataLen: nat, src: Address, dst: Address) returns (ip: array<byte>)
    ensures fresh(ip) && ip[..] == WithIpCheck(IpHeader(id, dataLen, src, dst))
  {
    ip := InMemory(IpHeader(id, dataLen, src, dst));
    ComputeIpChecksum(ip);
  }

  method BuildUdpHeader(ip: array<byte>, source: uint16, dest: uint16, data: seq<byte>) returns (udp: array<byte>)
    requires ip.Length >= IP_SIZE && |data| <= MAX_CHECKED
    ensures fresh(udp) && udp[..] == WithUdpCheck(ip[..], UdpHeader(source, dest, |data|), data)
  {
    udp := InMemory(UdpHeader(source, dest, |data|));
    ComputeUdpChecksum(ip, udp, data);
  }

  /** The filling of the send buffer, the same in the client's main loop, in its
      `send_shutdown` and in the server's reply, for whatever fits the buffer; and what sendto
      is given of it. */
  method BuildPacket(id: uint16, src: Address, dst: Address, source: uint16, dest: uint16, data: seq<byte>)
    returns (sendBuf: array<byte>, sent: seq<byte>)
    requires IP_SIZE + UDP_SIZE + |data| <= BUFFER_SIZE
    ensures sendBuf[..] == Packet(id, src, dst, source, dest, data)
    ensures sendBuf.Length >= IP_SIZE && Number(sendBuf[2], sendBuf[3]) <= sendBuf.Length
    ensures sent == OnWire(sendBuf[..])
  {
    hide Packet, WithIpCheck, WithUdpCheck;
    var ip := BuildIpHeader(id, |data|, src, dst);
    var udp := BuildUdpHeader(ip, source, dest, data);
    sendBuf := Assemble(ip[..], udp[..], data);
    PacketIs(id, src, dst, source, dest, data);
    SentWholeIff(id, src, dst, source, dest, data);
    sent := sendBuf[..Number(sendBuf[2], sendBuf[3])];
  }
}
