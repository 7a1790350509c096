/** Which bytes of a frame decide where it goes: the four of the IP destination address, in order. */
module Addressing {
  import opened Checksum
  import opened Decimal
  import opened Routing
  import opened Forwarding
  import opened RouteFile
  import Frames = Packet

  // ----- the dotted text reads back

  /** The number whose digits start at `at`. */
  function NumberAt(s: string, at: nat): nat
    requires at <= |s|
  {
    Value(s[at..RunEnd(s, at)])
  }

  /** Where the field behind the one at `at` starts. */
  function NextField(s: string, at: nat): nat
    requires at <= |s|
  {
    RunEnd(s, at) + 1
  }

  lemma FieldReadsBack(s: string, at: nat, n: nat, rest: string)
    requires at <= |s| && s[at..] == Digits(n) + ("." + rest)
    ensures NumberAt(s, at) == n && RunEnd(s, at) < |s| && s[RunEnd(s, at)] == '.'
    ensures s[NextField(s, at)..] == rest
  {
    var t, e := s[at..], at + |Digits(n)|;
    assert s[at..e] == t[..|Digits(n)|] == Digits(n);
    assert s[e] == t[|Digits(n)|] == '.';
    assert s[e + 1..] == t[|Digits(n)| + 1..] == rest;
    RunEndUnique(s, at, e);
    ValueOfDigits(n);
  }

  lemma LastFieldReadsBack(s: string, at: nat, n: nat)
    requires at <= |s| && s[at..] == Digits(n)
    ensures NumberAt(s, at) == n && RunEnd(s, at) == |s|
  {
    assert s[at..|s|] == Digits(n);
    RunEndUnique(s, at, |s|);
    ValueOfDigits(n);
  }

  /** inet_ntoa's text is four numbers with dots between them: the bytes of the address, first byte first. */
  lemma DottedReadsBack(a: seq<byte>)
    requires |a| == 4
    ensures var s := Dotted(a);
            var p1 := NextField(s, 0);
            && p1 <= |s| && s[p1 - 1] == '.' && NumberAt(s, 0) == a[0] && NumberAt(s, p1) == a[1]
            && var p2 := NextField(s, p1);
            && p2 <= |s| && s[p2 - 1] == '.' && NumberAt(s, p2) == a[2]
            && var p3 := NextField(s, p2);
            && p3 <= |s| && s[p3 - 1] == '.' && NumberAt(s, p3) == a[3] && RunEnd(s, p3) == |s|
  {
    hide Digits, Value, RunEnd;
    var s := Dotted(a);
    var t3 := Digits(a[3]);
    var t2 := Digits(a[2]) + ("." + t3);
    var t1 := Digits(a[1]) + ("." + t2);
    assert s[0..] == Digits(a[0]) + ("." + t1);
    FieldReadsBack(s, 0, a[0], t1);
    var p1 := NextField(s, 0);
    FieldReadsBack(s, p1, a[1], t2);
    var p2 := NextField(s, p1);
    FieldReadsBack(s, p2, a[2], t3);
    LastFieldReadsBack(s, NextField(s, p2), a[3]);
  }

  // ----- the destination address

  /** Byte `k` of a frame in a buffer of zeroes. */
  function ByteAt(pkt: Packet, k: nat): byte {
    if k < |pkt| then pkt[k] else 0
  }

  /** The destination of a frame: its bytes 30 to 33. */
  function Destination(pkt: Packet): (d: seq<byte>)
    ensures |d| == 4
  {
    [ByteAt(pkt, 30), ByteAt(pkt, 31), ByteAt(pkt, 32), ByteAt(pkt, 33)]
  }

  lemma DstIsDestination(pkt: Packet)
    ensures DstText(pkt) == Dotted(Destination(pkt))
  {
    var b := Buffered(pkt);
    assert forall k :: 30 <= k < 34 ==> b[k] == ByteAt(pkt, k);
    assert b[30..34] == Destination(pkt);
  }

  /** Frames with the same destination go the same way, whatever else they carry. */
  lemma DestinationDecides(c: Config, p: Packet, q: Packet)
    requires c.names != [] && p != [] && q != [] && Destination(p) == Destination(q)
    ensures Verdict(c, p) == Verdict(c, q)
  {
    DstIsDestination(p);
    DstIsDestination(q);
    hide DstText, SockIdx;
  }

  /** The last position of an address in a list, or -1. */
  function LastIndex(ds: seq<seq<byte>>, d: seq<byte>): (k: int)
    ensures -1 <= k < |ds|
    ensures k >= 0 ==> ds[k] == d
    ensures forall j :: k < j < |ds| ==> ds[j] != d
  {
    if ds == [] then -1 else if ds[|ds| - 1] == d then |ds| - 1 else LastIndex(ds[..|ds| - 1], d)
  }

  /** The routing list is the dotted texts of these addresses. */
  ghost predicate RoutesTo(routes: seq<Route>, ds: seq<seq<byte>>) {
    |routes| == |ds| && forall i :: 0 <= i < |ds| ==> |ds[i]| == 4 && routes[i].ip == Dotted(ds[i])
  }

  lemma {:induction false} TableByAddress(routes: seq<Route>, ds: seq<seq<byte>>, d: seq<byte>)
    requires RoutesTo(routes, ds) && |d| == 4
    ensures var k := LastIndex(ds, d);
            if k == -1 then Dotted(d) !in TableOf(routes)
            else Dotted(d) in TableOf(routes) && TableOf(routes)[Dotted(d)] == routes[k].intf
  {
    if routes != [] {
      var n := |routes| - 1;
      TableByAddress(routes[..n], ds[..n], d);
      if Dotted(ds[n]) == Dotted(d) {
        DottedIsInjective(ds[n], d);
      }
    }
  }

  /**
   * A frame is sent exactly if its bytes 30 to 33 are one of the addresses routed to; it goes by the
   * last entry for them, to the first interface of that name, and to interface 0 if there is none.
   */
  lemma SentByDestination(c: Config, ds: seq<seq<byte>>, p: Packet)
    requires c.names != [] && p != [] && RoutesTo(c.routes, ds)
    ensures Verdict(c, p) != -1 <==> Destination(p) in ds
    ensures Destination(p) in ds ==>
              var intf := c.routes[LastIndex(ds, Destination(p))].intf;
              Verdict(c, p) == if intf in c.names then FirstName(c.names, intf) else 0
  {
    DstIsDestination(p);
    TableByAddress(c.routes, ds, Destination(p));
    hide DstText, Dotted;
  }

  /** The frame that construct_packet leaves for an address goes by that address. */
  lemma ConstructedGoesByAddress(c: Config, f: Packet, daddr: seq<byte>)
    requires c.names != [] && |f| >= 42 && f[30..34] == daddr
    ensures DstText(f) == Dotted(daddr) && Verdict(c, f) == SockIdx(c.routes, c.names, Dotted(daddr))
  {
    DstIsDestination(f);
    assert Destination(f) == f[30..34];
  }

  /** construct_packet on one side and get_dst_sock_idx on the other. */
  method ConstructAndRoute(o: Order, buf: array<byte>, srcMac: seq<byte>, dstMac: seq<byte>, saddr: seq<byte>,
      daddr: seq<byte>, data: seq<byte>, c: Config)
    returns (txLen: nat)
    requires buf.Length == 2000 && |srcMac| == |dstMac| == 6 && |saddr| == |daddr| == 4 && 42 + |data| < buf.Length
    requires c.names != []
    modifies buf
    ensures 42 <= txLen <= buf.Length && Verdict(c, buf[..txLen]) == SockIdx(c.routes, c.names, Dotted(daddr))
  {
    hide Verdict, SockIdx, Dotted, Frames.Accepts, Frames.Constants;
    txLen := Frames.ConstructPacket(o, buf, srcMac, dstMac, saddr, daddr, data);
    assert buf[..txLen][30..34] == buf[30..34];
    ConstructedGoesByAddress(c, buf[..txLen], daddr);
  }

  // ----- router s1 with its routing file

  const S1_ADDRESSES: seq<seq<byte>> := [[10, 0, 0, 1], [10, 0, 0, 2], [10, 0, 0, 3], [10, 0, 0, 4]]
  const S1_ROUTES: seq<Route> :=
    [Route("10.0.0.1", "s1-eth1"), Route("10.0.0.2", "s1-eth2"), Route("10.0.0.3", "s1-eth3"),
     Route("10.0.0.4", "s1-eth3")]
  const S1_NAMES: seq<string> := ["s1-eth1", "s1-eth2", "s1-eth3"]

  lemma DottedTen(k: byte)
    requires 1 <= k <= 4
    ensures Dotted([10, 0, 0, k]) == "10.0.0." + [DigitChar(k)]
  {
    assert Digits(10) == "10" && Digits(0) == "0" && Digits(k) == [DigitChar(k)];
  }

  lemma S1RoutesTo()
    ensures RoutesTo(S1_ROUTES, S1_ADDRESSES)
  {
    DottedTen(1);
    DottedTen(2);
    DottedTen(3);
    DottedTen(4);
    hide Dotted, Digits;
  }

  lemma S1Line(line: string, r: Route)
    requires IsField(r.ip) && IsField(r.intf) && line == r.ip + "\t=>\t" + r.intf + "\n"
    ensures LineRoute(line) == r
  {
    hide LineRoute;
    ArrowReadsBack(r.ip, r.intf);
  }

  lemma {:induction false} LinesRead(lines: seq<string>, routes: seq<Route>)
    requires |lines| == |routes| && forall i :: 0 <= i < |lines| ==> LineRoute(lines[i]) == routes[i]
    ensures RoutesOf(lines) == routes
  {
    hide LineRoute;
    if lines != [] {
      LinesRead(lines[..|lines| - 1], routes[..|lines| - 1]);
    }
  }

  lemma S1Texts()
    ensures "10.0.0.1\t=>\ts1-eth1\n" == "10.0.0.1" + "\t=>\t" + "s1-eth1" + "\n"
    ensures "10.0.0.2\t=>\ts1-eth2\n" == "10.0.0.2" + "\t=>\t" + "s1-eth2" + "\n"
    ensures "10.0.0.3\t=>\ts1-eth3\n" == "10.0.0.3" + "\t=>\t" + "s1-eth3" + "\n"
    ensures "10.0.0.4\t=>\ts1-eth3\n" == "10.0.0.4" + "\t=>\t" + "s1-eth3" + "\n"
  {
  }

  lemma S1Lines(lines: seq<string>)
    requires lines == ["10.0.0.1\t=>\ts1-eth1\n", "10.0.0.2\t=>\ts1-eth2\n",
                       "10.0.0.3\t=>\ts1-eth3\n", "10.0.0.4\t=>\ts1-eth3\n"]
    ensures RoutesOf(lines) == S1_ROUTES
  {
    hide LineRoute, RoutesOf;
    S1Texts();
    S1Line(lines[0], S1_ROUTES[0]);
    S1Line(lines[1], S1_ROUTES[1]);
    S1Line(lines[2], S1_ROUTES[2]);
    S1Line(lines[3], S1_ROUTES[3]);
    LinesRead(lines, S1_ROUTES);
  }

  lemma S1Index(d: seq<byte>)
    ensures LastIndex(S1_ADDRESSES, d) ==
            if d == [10, 0, 0, 1] then 0 else if d == [10, 0, 0, 2] then 1 else if d == [10, 0, 0, 3] then 2
            else if d == [10, 0, 0, 4] then 3 else -1
  {
    hide LastIndex;
    var k := LastIndex(S1_ADDRESSES, d);
    assert S1_ADDRESSES[0][3] == 1 && S1_ADDRESSES[1][3] == 2 && S1_ADDRESSES[2][3] == 3 && S1_ADDRESSES[3][3] == 4;
    assert k == -1 ==> d != S1_ADDRESSES[0] && d != S1_ADDRESSES[1] && d != S1_ADDRESSES[2] && d != S1_ADDRESSES[3];
  }

  lemma S1Interface(k: nat)
    requires k < 3
    ensures S1_NAMES[k] in S1_NAMES && FirstName(S1_NAMES, S1_NAMES[k]) == k
  {
    hide FirstName;
    assert S1_NAMES[0][6] == '1' && S1_NAMES[1][6] == '2' && S1_NAMES[2][6] == '3';
  }

  /** The four lines of s1's routing file, tabs and all, and the way of every frame through s1. */
  lemma S1Forwards(lines: seq<string>, p: Packet)
    requires lines == ["10.0.0.1\t=>\ts1-eth1\n", "10.0.0.2\t=>\ts1-eth2\n",
                       "10.0.0.3\t=>\ts1-eth3\n", "10.0.0.4\t=>\ts1-eth3\n"]
    requires p != []
    ensures var d := Destination(p);
            Verdict(Config(RoutesOf(lines), ["s1-eth1", "s1-eth2", "s1-eth3"]), p)
              == if d == [10, 0, 0, 1] then 0 else if d == [10, 0, 0, 2] then 1
                 else if d == [10, 0, 0, 3] || d == [10, 0, 0, 4] then 2 else -1
  {
    hide Verdict, RoutesOf, RoutesTo, Destination, LastIndex, FirstName;
    S1Lines(lines);
    S1RoutesTo();
    S1Index(Destination(p));
    S1Interface(0);
    S1Interface(1);
    S1Interface(2);
    SentByDestination(Config(S1_ROUTES, S1_NAMES), S1_ADDRESSES, p);
  }
}
