/** The length and checksum fields of an outgoing IPv4/UDP frame, filled in place by construct_packet. */
module Packet {
  import opened Checksum

  // offsets in the send buffer: Ethernet header, IP header, UDP header, data
  const IP: nat := 14
  const TOT_LEN: nat := 16
  const IP_CHECK: nat := 24
  const SADDR: nat := 26
  const UDP: nat := 34
  const UDP_LEN: nat := 38
  const UDP_CHECK: nat := 40
  const DATA: nat := 42
  const PROTO_UDP: byte := 17

  /** htons, as bytes in memory: big-endian on any host. */
  function Net16(w: word): (b: seq<byte>)
    ensures |b| == 2
  {
    [w / 256, w % 256]
  }

  /** The pseudo header that the UDP checksum covers, as construct_packet lays it out. */
  function PseudoHeader(addresses: seq<byte>, udpLen: word): (p: seq<byte>)
    ensures |p| == |addresses| + 4
  {
    addresses + [0, PROTO_UDP] + Net16(udpLen)
  }

  /** A stretch of a frame. */
  function Part(f: seq<byte>, lo: nat, hi: nat): (p: seq<byte>)
    requires lo <= hi <= |f|
    ensures |p| == hi - lo
  {
    f[lo..hi]
  }

  function Pseudogram(f: seq<byte>): seq<byte>
    requires |f| >= DATA
  {
    PseudoStart(f) + Part(f, UDP, |f|)
  }

  /** The pseudo header, gathered from the frame itself. */
  function PseudoStart(f: seq<byte>): (p: seq<byte>)
    requires |f| >= DATA
    ensures |p| == 12
  {
    Part(f, SADDR, UDP) + [0, PROTO_UDP] + Part(f, UDP_LEN, UDP_CHECK)
  }

  /** What a receiver checks, from the frame alone: both sums come out as zero. */
  predicate Verifies(o: Order, frame: seq<byte>)
    requires |frame| >= DATA
  {
    Sum16(o, Part(frame, IP, UDP)) == 0 && Sum16(o, Pseudogram(frame)) == 0
  }

  // ----- writing a field

  lemma PatchInside(s: seq<byte>, at: nat, bytes: seq<byte>, lo: nat, hi: nat)
    requires lo <= at && at + |bytes| <= hi <= |s|
    ensures Part(Patch(s, at, bytes), lo, hi) == Patch(Part(s, lo, hi), at - lo, bytes)
  {
    PatchAt(s, at, bytes);
    PatchAt(Part(s, lo, hi), at - lo, bytes);
  }

  lemma PatchOutside(s: seq<byte>, at: nat, bytes: seq<byte>, lo: nat, hi: nat)
    requires at + |bytes| <= |s| && lo <= hi <= |s| && (hi <= at || at + |bytes| <= lo)
    ensures Part(Patch(s, at, bytes), lo, hi) == Part(s, lo, hi)
  {
    PatchAt(s, at, bytes);
  }

  lemma PatchAt(s: seq<byte>, at: nat, bytes: seq<byte>)
    requires at + |bytes| <= |s|
    ensures var p := Patch(s, at, bytes);
            && |p| == |s|
            && forall k :: 0 <= k < |s| ==> p[k] == if at <= k < at + |bytes| then bytes[k - at] else s[k]
  {
  }

  lemma PatchTail(x: seq<byte>, y: seq<byte>, at: nat, bytes: seq<byte>)
    requires at + |bytes| <= |y|
    ensures x + Patch(y, at, bytes) == Patch(x + y, |x| + at, bytes)
  {
    PatchAt(y, at, bytes);
    PatchAt(x + y, |x| + at, bytes);
  }

  method Write(buf: array<byte>, at: nat, bytes: seq<byte>)
    requires at + |bytes| <= buf.Length
    modifies buf
    ensures buf[..] == Patch(old(buf[..]), at, bytes)
    ensures buf[at..at + |bytes|] == bytes
    ensures forall i :: 0 <= i < buf.Length && (i < at || at + |bytes| <= i) ==> buf[i] == old(buf[i])
  {
    var i := 0;
    while i < |bytes|
      invariant i <= |bytes|
      invariant forall k :: 0 <= k < i ==> buf[at + k] == bytes[k]
      invariant forall k :: 0 <= k < buf.Length && (k < at || at + i <= k) ==> buf[k] == old(buf[k])
    {
      buf[at + i] := bytes[i];
      i := i + 1;
    }
  }

  // ----- the two checksums

  predicate ZeroAt(f: seq<byte>, at: nat) {
    at + 2 <= |f| && f[at] == f[at + 1] == 0
  }

  lemma ZeroInPart(f: seq<byte>, at: nat, lo: nat, hi: nat)
    requires ZeroAt(f, at) && lo <= at && at + 2 <= hi <= |f|
    ensures ZeroAt(Part(f, lo, hi), at - lo)
  {
  }

  /** The frame with the bytes of a checksum stored in a field. */
  function Filled(f: seq<byte>, at: nat, check: seq<byte>): (g: seq<byte>)
    requires |check| == 2 && at + 2 <= |f|
    ensures |g| == |f|
  {
    Patch(f, at, check)
  }

  function IpFilled(o: Order, f: seq<byte>): (g: seq<byte>)
    requires |f| >= DATA
    ensures |g| == |f|
  {
    Filled(f, IP_CHECK, Store(o, Sum16(o, Part(f, IP, UDP))))
  }

  function UdpFilled(o: Order, f: seq<byte>): (g: seq<byte>)
    requires |f| >= DATA
    ensures |g| == |f|
  {
    Filled(f, UDP_CHECK, Store(o, Sum16(o, Pseudogram(f))))
  }

  /** Storing the UDP checksum leaves everything before it alone. */
  lemma UdpCheckKeeps(f: seq<byte>, check: seq<byte>)
    requires |f| >= DATA && |check| == 2
    ensures var g := Filled(f, UDP_CHECK, check);
            PseudoStart(g) == PseudoStart(f) && Part(g, IP, UDP) == Part(f, IP, UDP)
  {
    PatchOutside(f, UDP_CHECK, check, SADDR, UDP);
    PatchOutside(f, UDP_CHECK, check, IP, UDP);
    PatchOutside(f, UDP_CHECK, check, UDP_LEN, UDP_CHECK);
    hide Part, Patch;
  }

  lemma IpSumIsZero(o: Order, f: seq<byte>)
    requires |f| >= DATA && ZeroAt(f, IP_CHECK)
    ensures Sum16(o, Part(IpFilled(o, f), IP, UDP)) == 0
  {
    hide Sum16, Store, Patch, Words, OnesSum, Part;
    var header := Part(f, IP, UDP);
    ZeroInPart(f, IP_CHECK, IP, UDP);
    FilledFieldVerifies(o, header, IP_CHECK - IP);
    PatchInside(f, IP_CHECK, Store(o, Sum16(o, header)), IP, UDP);
  }

  /** The pseudogram of a frame whose UDP checksum is stored is the pseudogram with it stored. */
  lemma PseudogramFilled(f: seq<byte>, check: seq<byte>)
    requires |f| >= DATA && |check| == 2
    ensures |Pseudogram(f)| >= 20
    ensures Pseudogram(Filled(f, UDP_CHECK, check)) == Patch(Pseudogram(f), 18, check)
  {
    hide Part, Patch, PseudoStart;
    UdpCheckKeeps(f, check);
    PatchInside(f, UDP_CHECK, check, UDP, |f|);
    PatchTail(PseudoStart(f), Part(f, UDP, |f|), UDP_CHECK - UDP, check);
  }

  lemma PseudogramZero(f: seq<byte>)
    requires |f| >= DATA && ZeroAt(f, UDP_CHECK)
    ensures ZeroAt(Pseudogram(f), 18)
  {
    ZeroInPart(f, UDP_CHECK, UDP, |f|);
    hide Part, PseudoStart;
    var y := Part(f, UDP, |f|);
    assert (PseudoStart(f) + y)[18] == y[6] && (PseudoStart(f) + y)[19] == y[7];
  }

  lemma UdpSumIsZero(o: Order, f: seq<byte>)
    requires DATA <= |f| <= 2000 && ZeroAt(f, UDP_CHECK)
    ensures Sum16(o, Pseudogram(UdpFilled(o, f))) == 0
  {
    PseudogramLength(f);
    PseudogramZero(f);
    hide Sum16, Store, Patch, Words, OnesSum, Pseudogram;
    var p := Pseudogram(f);
    PseudogramFilled(f, Store(o, Sum16(o, p)));
    FilledFieldVerifies(o, p, 18);
  }

  lemma PseudogramLength(f: seq<byte>)
    requires |f| >= DATA
    ensures |Pseudogram(f)| == 12 + |f| - UDP
  {
  }

  /** A frame whose two zeroed checksum fields are filled one after the other verifies. */
  lemma FilledFrameVerifies(o: Order, f: seq<byte>)
    requires DATA <= |f| <= 2000 && ZeroAt(f, IP_CHECK) && ZeroAt(f, UDP_CHECK)
    ensures Verifies(o, UdpFilled(o, IpFilled(o, f)))
  {
    hide Sum16, Store, Filled, Pseudogram, Part, PseudoStart;
    var g := IpFilled(o, f);
    IpSumIsZero(o, f);
    IpCheckKeepsZero(f, Store(o, Sum16(o, Part(f, IP, UDP))));
    UdpSumIsZero(o, g);
    UdpCheckKeeps(g, Store(o, Sum16(o, Pseudogram(g))));
  }

  lemma IpCheckKeepsZero(f: seq<byte>, check: seq<byte>)
    requires |f| >= DATA && ZeroAt(f, UDP_CHECK) && |check| == 2
    ensures ZeroAt(Filled(f, IP_CHECK, check), UDP_CHECK)
  {
    PatchAt(f, IP_CHECK, check);
  }

  // ----- the end of construct_packet

  /** The offsets of the fields that the end of construct_packet writes. */
  predicate IsSet(i: int) {
    TOT_LEN <= i < TOT_LEN + 2 || IP_CHECK <= i < UDP || UDP_LEN <= i < DATA
  }

  /** Zeroes the checksum fields and writes the addresses. */
  method SetAddresses(buf: array<byte>, addresses: seq<byte>)
    requires buf.Length == 2000 && |addresses| == 8
    modifies buf
    ensures ZeroAt(buf[..], IP_CHECK) && ZeroAt(buf[..], UDP_CHECK) && buf[SADDR..UDP] == addresses
    ensures forall i :: 0 <= i < buf.Length && !IsSet(i) ==> buf[i] == old(buf[i])
  {
    hide Patch;
    Write(buf, IP_CHECK, [0, 0]);
    assert ZeroAt(buf[..], IP_CHECK) by {
      assert buf[IP_CHECK..IP_CHECK + 2][0] == 0 && buf[IP_CHECK..IP_CHECK + 2][1] == 0;
    }
    Write(buf, UDP_CHECK, [0, 0]);
    assert ZeroAt(buf[..], UDP_CHECK) by {
      assert buf[UDP_CHECK..UDP_CHECK + 2][0] == 0 && buf[UDP_CHECK..UDP_CHECK + 2][1] == 0;
    }
    Write(buf, SADDR, addresses);
  }

  method SetLengths(buf: array<byte>, txLen: nat)
    requires buf.Length == 2000 && DATA <= txLen <= buf.Length
    modifies buf
    ensures buf[TOT_LEN..TOT_LEN + 2] == Net16(txLen - IP) && buf[UDP_LEN..UDP_CHECK] == Net16(txLen - UDP)
    ensures forall i :: 0 <= i < buf.Length && !(TOT_LEN <= i < TOT_LEN + 2) && !(UDP_LEN <= i < UDP_CHECK) ==>
              buf[i] == old(buf[i])
  {
    hide Patch, Net16;
    Write(buf, UDP_LEN, Net16(txLen - UDP));
    ghost var before := buf[..];
    Write(buf, TOT_LEN, Net16(txLen - IP));
    assert buf[UDP_LEN..UDP_CHECK] == before[UDP_LEN..UDP_CHECK];
  }

  /** The IP checksum over the header in the buffer. */
  method FillIpChecksum(o: Order, buf: array<byte>, ghost n: nat)
    requires buf.Length == 2000 && DATA <= n <= buf.Length
    modifies buf
    ensures buf[..n] == IpFilled(o, old(buf[..n]))
    ensures forall i :: 0 <= i < buf.Length && !(IP_CHECK <= i < SADDR) ==> buf[i] == old(buf[i])
  {
    hide Sum16, Store, Patch;
    ghost var f, whole := buf[..n], buf[..];
    assert Part(f, IP, UDP) == buf[IP..UDP] && Part(whole, 0, n) == f;
    var check := UdpCsum(o, buf, IP, UDP - IP);
    Write(buf, IP_CHECK, Store(o, check));
    PatchInside(whole, IP_CHECK, Store(o, check), 0, n);
    assert Part(buf[..], 0, n) == buf[..n];
  }

  /** The separate buffer that the UDP checksum is computed over. */
  method MakePseudogram(buf: array<byte>, addresses: seq<byte>, strlen: nat) returns (pseudogram: array<byte>)
    requires buf.Length == 2000 && DATA + strlen <= buf.Length && |addresses| == 8
    requires buf[SADDR..UDP] == addresses && buf[UDP_LEN..UDP_CHECK] == Net16(8 + strlen)
    ensures fresh(pseudogram) && pseudogram.Length == 20 + strlen
    ensures pseudogram[..] == Pseudogram(buf[..DATA + strlen])
  {
    hide Patch, Net16;
    pseudogram := new byte[12 + 8 + strlen];
    ghost var header := PseudoHeader(addresses, 8 + strlen);
    Write(pseudogram, 0, PseudoHeader(addresses, 8 + strlen));
    assert pseudogram[..12] == pseudogram[0..0 + 12] == header;
    Write(pseudogram, 12, buf[UDP..DATA + strlen]);
    assert pseudogram[..12] == header;
    ghost var f := buf[..DATA + strlen];
    assert Part(f, SADDR, UDP) == addresses && Part(f, UDP_LEN, UDP_CHECK) == Net16(8 + strlen);
    assert Part(f, UDP, |f|) == buf[UDP..DATA + strlen];
    assert pseudogram[..] == pseudogram[..12] + pseudogram[12..12 + (8 + strlen)];
  }

  method FillUdpChecksum(o: Order, buf: array<byte>, addresses: seq<byte>, strlen: nat)
    requires buf.Length == 2000 && DATA + strlen <= buf.Length && |addresses| == 8
    requires buf[SADDR..UDP] == addresses && buf[UDP_LEN..UDP_CHECK] == Net16(8 + strlen)
    modifies buf
    ensures buf[..DATA + strlen] == UdpFilled(o, old(buf[..DATA + strlen]))
    ensures forall i :: 0 <= i < buf.Length && !(UDP_CHECK <= i < DATA) ==> buf[i] == old(buf[i])
  {
    hide Sum16, Store, Patch, Pseudogram, Net16;
    ghost var n := DATA + strlen;
    ghost var f, whole := buf[..n], buf[..];
    assert Part(whole, 0, n) == f;
    var pseudogram := MakePseudogram(buf, addresses, strlen);
    var check := UdpCsum(o, pseudogram, 0, 20 + strlen);
    assert pseudogram[0..0 + (20 + strlen)] == pseudogram[..];
    Write(buf, UDP_CHECK, Store(o, check));
    PatchInside(whole, UDP_CHECK, Store(o, check), 0, n);
    assert Part(buf[..], 0, n) == buf[..n];
  }

  /** The end of construct_packet: the frame it leaves has the right lengths, and verifies. */
  method FinishPacket(o: Order, buf: array<byte>, addresses: seq<byte>, strlen: nat) returns (txLen: nat)
    requires buf.Length == 2000 && DATA + strlen <= buf.Length && |addresses| == 8
    modifies buf
    ensures txLen == DATA + strlen && Verifies(o, buf[..txLen])
    ensures buf[TOT_LEN..TOT_LEN + 2] == Net16(txLen - IP) && buf[UDP_LEN..UDP_CHECK] == Net16(txLen - UDP)
    ensures buf[SADDR..UDP] == addresses
    ensures forall i :: 0 <= i < buf.Length && !IsSet(i) ==> buf[i] == old(buf[i])
  {
    hide Net16, IpFilled, UdpFilled, Verifies;
    txLen := DATA + strlen;
    SetAddresses(buf, addresses);
    SetLengths(buf, txLen);
    assert buf[SADDR..UDP] == addresses;
    ghost var f := buf[..txLen];
    FilledFrameVerifies(o, f);
    FillIpChecksum(o, buf, txLen);
    assert buf[SADDR..UDP] == addresses && buf[UDP_LEN..UDP_CHECK] == Net16(txLen - UDP);
    FillUdpChecksum(o, buf, addresses, strlen);
    assert buf[SADDR..UDP] == addresses && buf[UDP_LEN..UDP_CHECK] == Net16(txLen - UDP);
  }

  // ----- the whole of construct_packet

  method FlushBuffer(buf: array<byte>)
    modifies buf
    ensures forall i :: 0 <= i < buf.Length ==> buf[i] == 0
  {
    for n := 0 to buf.Length
      invariant forall i :: 0 <= i < n ==> buf[i] == 0
    {
      buf[n] := 0;
    }
  }

  method PutBytes(buf: array<byte>, at: nat, x: byte, y: byte)
    requires at + 2 <= buf.Length
    modifies buf
    ensures buf[at] == x && buf[at + 1] == y
    ensures forall i :: 0 <= i < buf.Length && i != at && i != at + 1 ==> buf[i] == old(buf[i])
  {
    buf[at], buf[at + 1] := x, y;
  }

  /** A field in network byte order. */
  method PutWord(buf: array<byte>, at: nat, n: word)
    requires at + 2 <= buf.Length
    modifies buf
    ensures 256 * (buf[at] as int) + buf[at + 1] == n
    ensures forall i :: 0 <= i < buf.Length && i != at && i != at + 1 ==> buf[i] == old(buf[i])
  {
    PutBytes(buf, at, Net16(n)[0], Net16(n)[1]);
  }

  /** The MAC addresses, with the payload behind all headers. */
  method WriteEthernet(buf: array<byte>, srcMac: seq<byte>, dstMac: seq<byte>, data: seq<byte>)
    requires buf.Length == 2000 && |srcMac| == |dstMac| == 6 && DATA + |data| <= buf.Length
    modifies buf
    ensures buf[0..6] == dstMac && buf[6..12] == srcMac && buf[42..42 + |data|] == data
    ensures forall i :: 12 <= i < buf.Length && !(42 <= i < 42 + |data|) ==> buf[i] == old(buf[i])
  {
    hide Patch;
    Write(buf, 6, srcMac);
    Write(buf, DATA, data);
    assert buf[6..12] == srcMac;
    Write(buf, 0, dstMac);
    assert buf[6..12] == srcMac && buf[42..42 + |data|] == data;
  }

  /** The constant fields: an IPv4 header without options, id 54321, ttl 64, protocol 17, ports 3423 and 12000. */
  predicate Constants(f: seq<byte>) {
    && |f| >= 42 && f[12] == 8 && f[13] == 0 && f[14] == 0x45 && f[15] == 0
    && 256 * (f[18] as int) + f[19] == 54321 && f[20] == f[21] == 0 && f[22] == 64 && f[23] == 17
    && 256 * (f[34] as int) + f[35] == 3423 && 256 * (f[36] as int) + f[37] == 12000
  }

  method WriteConstants(buf: array<byte>)
    requires buf.Length == 2000 && buf[20] == buf[21] == 0
    modifies buf
    ensures Constants(buf[..])
    ensures forall i :: 0 <= i < buf.Length && (i < 12 || DATA <= i) ==> buf[i] == old(buf[i])
  {
    PutBytes(buf, 12, 8, 0);
    PutBytes(buf, IP, 0x45, 0);
    PutWord(buf, 18, 54321);
    PutBytes(buf, 22, 64, 17);
    PutWord(buf, UDP, 3423);
    PutWord(buf, 36, 12000);
  }

  /** What the UDP checksum covers, taken from the frame alone: addresses, protocol and UDP length, then the datagram. */
  function Covered(f: seq<byte>): seq<byte>
    requires |f| >= 42
  {
    f[26..34] + [0, f[23]] + f[38..40] + f[34..]
  }

  /**
   * The check of a receiver that sees only the bytes of the frame: an IPv4 datagram without options
   * that carries UDP, with the lengths it says, whose header and whose UDP data under its pseudo
   * header both have the one's complement sum 0xFFFF (RFC 791, RFC 768, section 1 of RFC 1071).
   */
  predicate Accepts(f: seq<byte>) {
    && |f| >= 42 && f[12] == 8 && f[13] == 0 && f[14] == 0x45 && f[23] == 17
    && 256 * (f[16] as int) + f[17] == |f| - 14 && 256 * (f[38] as int) + f[39] == |f| - 34
    && OnesSum(Words(Big, f[14..34])) == 0xFFFF
    && OnesSum(Words(Big, Covered(f))) == 0xFFFF
  }

  lemma ZeroSumIsAllOnes(o: Order, d: seq<byte>)
    requires |d| <= 4000 && Sum16(o, d) == 0
    ensures OnesSum(Words(Big, d)) == 0xFFFF
  {
    hide Words, Sum16, OnesSum, Store;
    ChecksumIsExact(Big, d);
    ByteOrderIndependence(d);
  }

  lemma VerifiedIsAccepted(o: Order, f: seq<byte>)
    requires 42 <= |f| <= 2000 && Verifies(o, f) && f[12] == 8 && f[13] == 0 && f[14] == 0x45 && f[23] == 17
    requires f[16..18] == Net16(|f| - 14) && f[38..40] == Net16(|f| - 34)
    ensures Accepts(f)
  {
    LengthField(f, 16, |f| - 14);
    LengthField(f, 38, |f| - 34);
    assert Pseudogram(f) == Covered(f) && Part(f, IP, UDP) == f[14..34];
    hide Words, Sum16, OnesSum, Net16, Part, Pseudogram;
    ZeroSumIsAllOnes(o, f[14..34]);
    ZeroSumIsAllOnes(o, Covered(f));
  }

  lemma LengthField(f: seq<byte>, at: nat, n: word)
    requires at + 2 <= |f| && f[at..at + 2] == Net16(n)
    ensures 256 * (f[at] as int) + f[at + 1] == n
  {
    assert f[at] == f[at..at + 2][0] && f[at + 1] == f[at..at + 2][1];
  }

  /**
   * construct_packet: the frame it leaves has these addresses, ports and data, its other constant
   * fields are as written here, and any receiver accepts it.
   */
  method ConstructPacket(o: Order, buf: array<byte>, srcMac: seq<byte>, dstMac: seq<byte>, saddr: seq<byte>,
      daddr: seq<byte>, data: seq<byte>)
    returns (txLen: nat)
    requires buf.Length == 2000 && |srcMac| == |dstMac| == 6 && |saddr| == |daddr| == 4 && 42 + |data| < buf.Length
    modifies buf
    ensures txLen == 42 + |data| && Accepts(buf[..txLen]) && Constants(buf[..txLen])
    ensures buf[0..6] == dstMac && buf[6..12] == srcMac && buf[26..30] == saddr && buf[30..34] == daddr
    ensures buf[42..txLen] == data && forall i :: txLen <= i < buf.Length ==> buf[i] == 0
  {
    hide Patch, Verifies, Accepts;
    FlushBuffer(buf);
    WriteEthernet(buf, srcMac, dstMac, data);
    WriteConstants(buf);
    ghost var before := buf[..];
    assert before[0..6] == dstMac && before[6..12] == srcMac && before[42..42 + |data|] == data;
    txLen := FinishPacket(o, buf, saddr + daddr, |data|);
    assert buf[26..30] == buf[26..34][..4] && buf[30..34] == buf[26..34][4..];
    assert buf[0..6] == before[0..6] && buf[6..12] == before[6..12] && buf[42..txLen] == before[42..txLen];
    ghost var f := buf[..txLen];
    assert f[16..18] == buf[16..18] && f[38..40] == buf[38..40];
    VerifiedIsAccepted(o, f);
  }
}
