/** The static routing list: reading it from lines of text, and choosing the output interface. */
module Routing {
  import opened Decimal
  import opened Checksum
  import opened LinkedList

  datatype Route = Route(ip: string, intf: string)

  // ----- choosing the output

  /** The list as a map, folded from left to right: a later entry for an address replaces an earlier one. */
  function TableOf(routes: seq<Route>): map<string, string> {
    if routes == [] then map[]
    else
      var last := routes[|routes| - 1];
      TableOf(routes[..|routes| - 1])[last.ip := last.intf]
  }

  /** The first position of the name, or the length. */
  function FirstName(names: seq<string>, name: string): (k: nat)
    ensures k <= |names| && (k < |names| ==> names[k] == name)
    ensures name in names ==> k < |names|
    ensures forall j :: 0 <= j < k ==> names[j] != name
  {
    if names == [] || names[0] == name then 0 else 1 + FirstName(names[1..], name)
  }

  /** The socket index for an address: -1 without a route, and 0 for a route to an unknown interface. */
  function SockIdx(routes: seq<Route>, names: seq<string>, ip: string): (idx: int)
    requires names != []
    ensures -1 <= idx < |names|
  {
    var table := TableOf(routes);
    if ip !in table then -1
    else if FirstName(names, table[ip]) < |names| then FirstName(names, table[ip])
    else 0
  }

  /** The last entry for an address wins. */
  lemma {:induction false} LastEntryWins(before: seq<Route>, r: Route, after: seq<Route>)
    requires forall a :: a in after ==> a.ip != r.ip
    ensures var table := TableOf(before + [r] + after); r.ip in table && table[r.ip] == r.intf
  {
    var all := before + [r] + after;
    if after == [] {
      assert all == before + [r];
      assert all[..|all| - 1] == before;
    } else {
      LastEntryWins(before, r, after[..|after| - 1]);
      assert all[..|all| - 1] == before + [r] + after[..|after| - 1];
    }
  }

  lemma {:induction false} NoEntryNoRoute(routes: seq<Route>, ip: string)
    ensures ip in TableOf(routes) <==> exists r :: r in routes && r.ip == ip
  {
    if routes != [] {
      NoEntryNoRoute(routes[..|routes| - 1], ip);
      assert routes == routes[..|routes| - 1] + [routes[|routes| - 1]];
    }
  }

  /** A packet goes out of the interface its route names exactly when the router has that interface. */
  lemma RoutedToItsInterface(routes: seq<Route>, names: seq<string>, ip: string)
    requires names != [] && ip in TableOf(routes)
    ensures names[SockIdx(routes, names, ip)] == TableOf(routes)[ip] <==> TableOf(routes)[ip] in names
  {
  }

  /** The lookup part of get_dst_sock_idx: the whole list is walked, and the last match is kept. */
  method GetDstSockIdx(routes: List<Route>, names: seq<string>, ip: string) returns (idx: int)
    requires routes.Valid() && names != []
    ensures idx == SockIdx(routes.items, names, ip)
  {
    var found, intf := false, "";
    var cur := routes.head;
    ghost var i := 0;
    while cur != null
      invariant 0 <= i <= |routes.nodes| && cur == routes.At(i)
      invariant found <==> ip in TableOf(routes.items[..i])
      invariant found ==> intf == TableOf(routes.items[..i])[ip]
      decreases |routes.nodes| - i
    {
      var entry := cur.item;
      assert routes.items[..i + 1][..i] == routes.items[..i];
      if entry.ip == ip {
        found, intf := true, entry.intf;
      }
      cur, i := cur.next, i + 1;
    }
    assert routes.items[..i] == routes.items;
    if !found {
      return -1;
    }
    for k := 0 to |names|
      invariant forall j :: 0 <= j < k ==> names[j] != intf
    {
      if intf == names[k] {
        return k;
      }
    }
    return 0;
  }

  // ----- the destination address of a packet

  /** inet_ntoa on the four bytes of an address. */
  function Dotted(a: seq<byte>): string
    requires |a| == 4
  {
    Digits(a[0]) + ("." + (Digits(a[1]) + ("." + (Digits(a[2]) + ("." + Digits(a[3]))))))
  }

  lemma DigitsThenDot(m: nat, n: nat, x: string, y: string)
    requires Digits(m) + ("." + x) == Digits(n) + ("." + y)
    ensures m == n && x == y
  {
    var s := Digits(m) + ("." + x);
    var i, j := |Digits(m)|, |Digits(n)|;
    assert s[0..i] == Digits(m) && s[0..j] == Digits(n) && s[i] == '.' && s[j] == '.';
    RunEndUnique(s, 0, i);
    RunEndUnique(s, 0, j);
    ValueOfDigits(m);
    ValueOfDigits(n);
    assert s[i + 1..] == x && s[j + 1..] == y;
  }

  /** Comparing dotted texts with strcmp is comparing addresses. */
  lemma DottedIsInjective(a: seq<byte>, b: seq<byte>)
    requires |a| == |b| == 4 && Dotted(a) == Dotted(b)
    ensures a == b
  {
    hide Digits;
    DigitsThenDot(a[0], b[0], Digits(a[1]) + ("." + (Digits(a[2]) + ("." + Digits(a[3])))),
                  Digits(b[1]) + ("." + (Digits(b[2]) + ("." + Digits(b[3])))));
    DigitsThenDot(a[1], b[1], Digits(a[2]) + ("." + Digits(a[3])), Digits(b[2]) + ("." + Digits(b[3])));
    DigitsThenDot(a[2], b[2], Digits(a[3]), Digits(b[3]));
    ValueOfDigits(a[3]);
    ValueOfDigits(b[3]);
  }

  /** The receive buffer: the packet in front, the rest zeroed by flush_buffer. */
  function Buffered(pkt: seq<byte>): (buf: seq<byte>)
    ensures |buf| >= BUFSIZE
  {
    pkt + seq(BUFSIZE, _ => 0)
  }

  /** The text of the IP header's destination address, behind the Ethernet header. */
  function DstText(pkt: seq<byte>): string {
    Dotted(Buffered(pkt)[30..34])
  }
}
