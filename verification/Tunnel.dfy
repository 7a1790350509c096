/** The tunnel's framing: each frame goes over the byte stream as a 16-bit length and its bytes. */
module Tunnel {
  import opened Checksum
  import opened Decimal
  import opened Packet

  type Frame = f: seq<byte> | |f| <= BUFSIZE

  /** A frame on the wire: its length, then its bytes. */
  function OnWire(f: Frame): seq<byte> {
    Net16(|f|) + f
  }

  function Encode(frames: seq<Frame>): seq<byte> {
    if frames == [] then [] else OnWire(frames[0]) + Encode(frames[1..])
  }

  /** The network socket as a reader sees it: the bytes still to come, then end of file. */
  class Source {
    var rest: seq<byte>

    constructor (rest: seq<byte>)
      ensures this.rest == rest
    {
      this.rest := rest;
    }

    /** cread: any non-empty part of what was asked for and is there; nothing only at the end. */
    method Read(n: nat) returns (chunk: seq<byte>)
      modifies this
      ensures |chunk| <= n && chunk + rest == old(rest)
      ensures n > 0 && chunk == [] ==> rest == []
    {
      if n == 0 || rest == [] {
        return [];
      }
      var k :| 1 <= k <= n && k <= |rest|;
      chunk := rest[..k];
      rest := rest[k..];
    }
  }

  /** The network as a writer sees it. `missing` counts the bytes that short writes have left out. */
  class Sink {
    var written: seq<byte>
    ghost var missing: nat

    constructor ()
      ensures written == [] && missing == 0
    {
      written, missing := [], 0;
    }

    /** cwrite: takes any first part of the bytes; the caller does not look at how many. */
    method Write(bytes: seq<byte>) returns (n: nat)
      modifies this
      ensures n <= |bytes| && written == old(written) + bytes[..n]
      ensures Took(old(written), old(missing), written, missing, bytes)
    {
      n :| n <= |bytes|;
      assert n == |bytes| ==> bytes[..n] == bytes;
      written := written + bytes[..n];
      missing := missing + |bytes| - n;
    }
  }

  /** Each of these bytes was written or is missing, and if none is missing they were written in order. */
  predicate Took(written: seq<byte>, missing: nat, after: seq<byte>, missed: nat, bytes: seq<byte>) {
    && |after| + missed == |written| + missing + |bytes| && missing <= missed
    && (missed == missing ==> after == written + bytes)
  }

  lemma TookBoth(w0: seq<byte>, m0: nat, w1: seq<byte>, m1: nat, w2: seq<byte>, m2: nat, a: seq<byte>, b: seq<byte>)
    requires Took(w0, m0, w1, m1, a) && Took(w1, m1, w2, m2, b)
    ensures Took(w0, m0, w2, m2, a + b)
  {
    SumAssociates(w0, a, b);
  }

  /** read_n: exactly `n` bytes, however the reads are cut, or 0 once the stream ends. */
  method ReadN(src: Source, buf: array<byte>, n: nat) returns (r: nat)
    requires n <= buf.Length
    modifies src, buf
    ensures n <= |old(src.rest)| ==>
              r == n && buf[..n] == old(src.rest)[..n] && src.rest == old(src.rest)[n..]
    ensures n > |old(src.rest)| ==> r == 0 && src.rest == []
  {
    var left, at := n, 0;
    while left > 0
      invariant 0 <= left <= n && at == n - left
      invariant buf[..at] + src.rest == old(src.rest)
      decreases left
    {
      var chunk := src.Read(left);
      if chunk == [] {
        return 0;
      }
      Packet.Write(buf, at, chunk);
      assert buf[..at + |chunk|] == buf[..at] + chunk;
      left := left - |chunk|;
      at := at + |chunk|;
    }
    return n;
  }

  /** One turn of the sending side: the frame read into the buffer goes out behind its length. */
  method SendFrame(buffer: array<byte>, nread: nat, net: Sink)
    requires buffer.Length == BUFSIZE && nread <= BUFSIZE
    modifies net
    ensures Took(old(net.written), old(net.missing), net.written, net.missing, Encode([buffer[..nread]]))
  {
    var nwrite := net.Write(Net16(nread));
    ghost var written, missing := net.written, net.missing;
    nwrite := net.Write(buffer[..nread]);
    assert Encode([buffer[..nread]]) == Net16(nread) + buffer[..nread] + Encode([]);
    TookBoth(old(net.written), old(net.missing), written, missing, net.written, net.missing,
             Net16(nread), buffer[..nread]);
  }

  lemma EncodeFirst(frames: seq<Frame>)
    requires frames != []
    ensures Encode(frames) == OnWire(frames[0]) + Encode(frames[1..])
  {
  }

  lemma TailOfSum<T>(a: seq<T>, b: seq<T>)
    requires a != []
    ensures (a + b)[0] == a[0] && (a + b)[1..] == a[1..] + b
  {
  }

  lemma SumAssociates<T>(a: seq<T>, b: seq<T>, c: seq<T>)
    ensures a + (b + c) == a + b + c
  {
  }

  lemma {:induction false} EncodeAppends(frames: seq<Frame>, more: seq<Frame>)
    ensures Encode(frames + more) == Encode(frames) + Encode(more)
  {
    if frames == [] {
      assert frames + more == more && Encode(frames) == [];
    } else {
      EncodeFirst(frames);
      EncodeFirst(frames + more);
      hide Encode, OnWire;
      TailOfSum(frames, more);
      EncodeAppends(frames[1..], more);
      SumAssociates(OnWire(frames[0]), Encode(frames[1..]), Encode(more));
    }
  }

  lemma EncodeNext(taps: seq<Frame>, i: nat)
    requires i < |taps|
    ensures Encode(taps[..i + 1]) == Encode(taps[..i]) + Encode([taps[i]])
  {
    hide Encode;
    assert taps[..i + 1] == taps[..i] + [taps[i]];
    EncodeAppends(taps[..i], [taps[i]]);
  }

  /** One frame read from the tap into the buffer, and sent. */
  method RelayFrame(frame: Frame, buffer: array<byte>, net: Sink)
    requires buffer.Length == BUFSIZE
    modifies buffer, net
    ensures Took(old(net.written), old(net.missing), net.written, net.missing, Encode([frame]))
  {
    hide Encode, Patch, Took;
    Packet.Write(buffer, 0, frame);
    assert buffer[..|frame|] == buffer[0..0 + |frame|] == frame;
    SendFrame(buffer, |frame|, net);
  }

  /** The sending side over a whole run: the stream is the encoding of its frames exactly if no write was short. */
  method SendAll(taps: seq<Frame>, buffer: array<byte>, net: Sink)
    requires buffer.Length == BUFSIZE
    modifies buffer, net
    ensures net.written == old(net.written) + Encode(taps) <==> net.missing == old(net.missing)
    ensures |net.written| + net.missing == |old(net.written)| + old(net.missing) + |Encode(taps)|
  {
    assert taps[..|taps|] == taps && Encode(taps[..0]) == [];
    hide Encode;
    for i := 0 to |taps|
      invariant Took(old(net.written), old(net.missing), net.written, net.missing, Encode(taps[..i]))
    {
      hide Took;
      ghost var written, missing := net.written, net.missing;
      RelayFrame(taps[i], buffer, net);
      EncodeNext(taps, i);
      TookBoth(old(net.written), old(net.missing), written, missing, net.written, net.missing,
               Encode(taps[..i]), Encode([taps[i]]));
    }
  }

  /** The length that the first two bytes announce. */
  function Announced(bytes: seq<byte>): word
    requires |bytes| >= 2
  {
    256 * (bytes[0] as int) + bytes[1]
  }

  /** Each announced length fits the buffer. */
  predicate LengthsFit(bytes: seq<byte>) {
    |bytes| < 2 ||
    var n := Announced(bytes);
    n <= BUFSIZE && (|bytes| < 2 + n || LengthsFit(bytes[2 + n..]))
  }

  /** The receiving side is safe exactly up to frames of 2000 bytes. */
  lemma FirstLengthFits(bytes: seq<byte>)
    requires |bytes| == 2
    ensures LengthsFit(bytes) <==> 256 * (bytes[0] as int) + bytes[1] <= 2000
  {
  }

  /** The frames that the receiving side makes of a stream; a last one that is cut short comes out empty. */
  function Decode(bytes: seq<byte>): seq<Frame>
    requires LengthsFit(bytes)
  {
    if |bytes| < 2 then []
    else
      var n := Announced(bytes);
      if |bytes| < 2 + n then [[]] else [bytes[2..2 + n]] + Decode(bytes[2 + n..])
  }

  /** One turn of the receiving side: a length, then a frame, or the end of the stream. */
  method ReceiveFrame(net: Source, buffer: array<byte>) returns (ok: bool, frame: Frame)
    requires buffer.Length == BUFSIZE && LengthsFit(net.rest)
    modifies net, buffer
    ensures LengthsFit(net.rest) && (ok ==> |net.rest| < |old(net.rest)|) && (!ok ==> net.rest == [])
    ensures Decode(old(net.rest)) == (if ok then [frame] else []) + Decode(net.rest)
  {
    ghost var before := net.rest;
    var plength := new byte[2];
    var nread := ReadN(net, plength, 2);
    if nread == 0 {
      return false, [];
    }
    assert plength[..2] == [plength[0], plength[1]] == before[..2];
    var length: nat := 256 * (plength[0] as int) + plength[1];
    assert length == Announced(before) <= BUFSIZE;
    ghost var rest := net.rest;
    assert rest == before[2..];
    nread := ReadN(net, buffer, length);
    frame := buffer[..nread];
    if length <= |rest| {
      assert rest[..length] == before[2..2 + length] && rest[length..] == before[2 + length..];
    }
    return true, frame;
  }

  /** The receiving loop, on any stream whose lengths fit the buffer, however its reads are cut. */
  method Receive(net: Source, buffer: array<byte>) returns (tap: seq<Frame>)
    requires buffer.Length == BUFSIZE && LengthsFit(net.rest)
    modifies net, buffer
    ensures tap == Decode(old(net.rest)) && net.rest == []
  {
    tap := [];
    hide Decode, LengthsFit;
    while true
      invariant LengthsFit(net.rest) && Decode(old(net.rest)) == tap + Decode(net.rest)
      decreases |net.rest|
    {
      ghost var before := Decode(net.rest);
      var ok, frame := ReceiveFrame(net, buffer);
      if !ok {
        NothingToDecode(net.rest);
        break;
      }
      SumAssociates(tap, [frame], Decode(net.rest));
      tap := tap + [frame];
    }
  }

  lemma NothingToDecode(bytes: seq<byte>)
    requires bytes == []
    ensures LengthsFit(bytes) && Decode(bytes) == []
  {
  }

  // ----- what the receiving side delivers

  /** What the receiving side writes to the tap when the stream ends after `k` bytes. */
  function Delivered(frames: seq<Frame>, k: nat): seq<Frame> {
    if frames == [] || k < 2 then []
    else if k < 2 + |frames[0]| then [[]]
    else [frames[0]] + Delivered(frames[1..], k - 2 - |frames[0]|)
  }

  lemma FirstLength(bytes: seq<byte>, frames: seq<Frame>)
    requires bytes <= Encode(frames) && |bytes| >= 2
    ensures frames != [] && Announced(bytes) == |frames[0]|
    ensures var n := 2 + |frames[0]|;
            n <= |bytes| ==> bytes[2..n] == frames[0] && bytes[n..] <= Encode(frames[1..])
  {
    EncodeFirst(frames);
    var e, n := Encode(frames), 2 + |frames[0]|;
    hide Encode;
    assert bytes == e[..|bytes|] && e[..2] == Net16(|frames[0]|) && e[2..n] == frames[0];
    assert e[n..] == Encode(frames[1..]);
    assert bytes[0] == e[..2][0] && bytes[1] == e[..2][1];
    if n <= |bytes| {
      assert bytes[n..] == e[n..][..|bytes| - n];
    }
  }

  /** A stream of encoded frames, cut anywhere, has lengths that fit, and decodes to what is delivered. */
  lemma {:induction false} DecodeCut(frames: seq<Frame>, bytes: seq<byte>)
    requires bytes <= Encode(frames)
    ensures LengthsFit(bytes) && Decode(bytes) == Delivered(frames, |bytes|)
    decreases |bytes|
  {
    if |bytes| >= 2 {
      FirstLength(bytes, frames);
      var n := 2 + |frames[0]|;
      if n <= |bytes| {
        DecodeCut(frames[1..], bytes[n..]);
      }
      hide Encode;
    }
  }

  /** How many frames lie whole within the first `k` bytes. */
  function Whole(frames: seq<Frame>, k: nat): nat {
    if frames == [] || k < 2 + |frames[0]| then 0 else 1 + Whole(frames[1..], k - 2 - |frames[0]|)
  }

  lemma PrefixLength(frames: seq<Frame>, m: nat)
    requires 0 < m <= |frames|
    ensures frames[..m] == [frames[0]] + frames[1..][..m - 1]
    ensures |Encode(frames[..m])| == 2 + |frames[0]| + |Encode(frames[1..][..m - 1])|
  {
    assert frames[..m][1..] == frames[1..][..m - 1];
  }

  /**
   * A stream cut after `k` bytes delivers exactly the frames that arrived whole, and then one empty
   * frame just when the cut comes after a length and before the end of its frame.
   */
  lemma {:induction false} CutDelivers(frames: seq<Frame>, k: nat)
    requires k <= |Encode(frames)|
    ensures var m := Whole(frames, k);
            && m <= |frames| && |Encode(frames[..m])| <= k
            && (m < |frames| ==> k < |Encode(frames[..m])| + 2 + |frames[m]|)
            && Delivered(frames, k) == frames[..m] + if k >= |Encode(frames[..m])| + 2 then [[]] else []
  {
    assert frames[..0] == [] && Encode(frames[..0]) == [];
    if frames != [] && k >= 2 + |frames[0]| {
      var rest := frames[1..];
      EncodeFirst(frames);
      CutDelivers(rest, k - 2 - |frames[0]|);
      var m := Whole(frames, k);
      PrefixLength(frames, m);
      hide Encode, OnWire;
      SumAssociates([frames[0]], rest[..m - 1], if k >= |Encode(frames[..m])| + 2 then [[]] else []);
    }
  }

  lemma {:induction false} WholeDelivers(frames: seq<Frame>)
    ensures Delivered(frames, |Encode(frames)|) == frames
  {
    if frames != [] {
      WholeDelivers(frames[1..]);
      assert frames == [frames[0]] + frames[1..];
    }
  }

  /** The whole stream delivers exactly the frames that were sent. */
  lemma RoundTrip(frames: seq<Frame>)
    ensures LengthsFit(Encode(frames)) && Decode(Encode(frames)) == frames
  {
    hide Encode, Decode, LengthsFit;
    WholeDelivers(frames);
    DecodeCut(frames, Encode(frames));
  }
}
