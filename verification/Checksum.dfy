/** The Internet checksum (RFC 1071) as udp_csum and csum compute it, on either byte order. */
module Checksum {

  type byte = b: int | 0 <= b < 256
  type word = w: int | 0 <= w < 0x1_0000

  /** How the host lays a 16-bit word out in memory. */
  datatype Order = Little | Big

  function WordAt(o: Order, first: byte, second: byte): word {
    if o.Little? then first + 256 * second else 256 * first + second
  }

  function Store(o: Order, w: word): (b: seq<byte>)
    ensures |b| == 2
  {
    if o.Little? then [w % 256, w / 256] else [w / 256, w % 256]
  }

  function Swap(w: word): word {
    w % 256 * 256 + w / 256
  }

  /** The 16-bit words of the data, an odd last byte padded with zero. */
  function Words(o: Order, d: seq<byte>): seq<word> {
    if d == [] then []
    else if |d| == 1 then [WordAt(o, d[0], 0)]
    else [WordAt(o, d[0], d[1])] + Words(o, d[2..])
  }

  function Total(ws: seq<word>): nat {
    if ws == [] then 0 else ws[0] + Total(ws[1..])
  }

  /** The two folding steps, and what is left of the sum in 16 bits. */
  function FirstFold(sum: nat): nat {
    sum / 0x1_0000 + sum % 0x1_0000
  }

  function SecondFold(sum: nat): nat {
    FirstFold(sum) + FirstFold(sum) / 0x1_0000
  }

  function Folded(sum: nat): word {
    SecondFold(sum) % 0x1_0000
  }

  /** udp_csum on the bytes `d`. */
  function Sum16(o: Order, d: seq<byte>): word {
    0xFFFF - Folded(Total(Words(o, d)))
  }

  // ----- section 1 of RFC 1071: the one's complement sum

  /** Addition of 16-bit words with end-around carry. */
  function AddWithCarry(a: word, b: word): word {
    if a + b > 0xFFFF then a + b - 0xFFFF else a + b
  }

  function OnesSum(ws: seq<word>): word {
    if ws == [] then 0 else AddWithCarry(ws[0], OnesSum(ws[1..]))
  }

  /** The representative of `sum` modulo 0xFFFF in 1..0xFFFF, and 0 for an empty sum. */
  function Canonical(sum: nat): word {
    if sum == 0 then 0 else (sum - 1) % 0xFFFF + 1
  }

  lemma {:induction false} OnesSumIsCanonical(ws: seq<word>)
    ensures OnesSum(ws) == Canonical(Total(ws))
  {
    if ws != [] {
      OnesSumIsCanonical(ws[1..]);
      CanonicalAdds(ws[0], Total(ws[1..]));
    }
  }

  lemma CanonicalAdds(w: word, t: nat)
    ensures Canonical(w + t) == AddWithCarry(w, Canonical(t))
  {
  }

  /** The low half of the first fold plus its carries: what the second fold has to hold. */
  function Spill(sum: nat): nat {
    FirstFold(sum) % 0x1_0000 + FirstFold(sum) / 0x1_0000
  }

  /** The two folds lose no carry. */
  predicate FoldsFit(sum: nat) {
    Spill(sum) < 0x1_0000
  }

  lemma CanonicalUnique(s: nat, u: word, n: int)
    requires s > 0 && u > 0 && s == u + 0xFFFF * n
    ensures Canonical(s) == u
  {
  }

  lemma CanonicalQuotient(t: nat) returns (k: int)
    requires t > 0
    ensures Canonical(t) > 0 && t == Canonical(t) + 0xFFFF * k
  {
    k := (t - 1) / 0xFFFF;
  }

  lemma FoldCongruence(sum: nat) returns (n: int)
    ensures sum == Spill(sum) + 0xFFFF * n && Folded(sum) == Spill(sum) % 0x1_0000
    ensures sum > 0 ==> Spill(sum) > 0
  {
    n := sum / 0x1_0000 + FirstFold(sum) / 0x1_0000;
  }

  lemma SpillBound(sum: nat)
    requires sum < 0x8000_0000_0000_0000
    ensures Spill(sum) < 0xFFFF * 0x1_0000
  {
    assert FirstFold(sum) < 0x8000_0001_0000;
  }

  lemma NotCongruent(a: int, m: int)
    requires 0 < a < 0xFFFF
    ensures a != 0xFFFF * m
  {
  }

  lemma LostCarry(v: nat, sum: nat, n: int)
    requires 0x1_0000 <= v < 0xFFFF * 0x1_0000 && sum > 0 && sum == v + 0xFFFF * n
    ensures v % 0x1_0000 != Canonical(sum)
  {
    var a, b := v / 0x1_0000, v % 0x1_0000;
    var k := CanonicalQuotient(sum);
    hide Canonical;
    NotCongruent(a, k - n - a);
  }

  /** For any sum that fits a long, two folds are exact just when no carry is lost. */
  lemma FoldingExactly(sum: nat)
    requires sum < 0x8000_0000_0000_0000
    ensures Folded(sum) == Canonical(sum) <==> FoldsFit(sum)
  {
    var n := FoldCongruence(sum);
    SpillBound(sum);
    hide Canonical, Folded, Spill;
    if sum == 0 {
      FoldingZero(sum);
    } else if FoldsFit(sum) {
      CanonicalUnique(sum, Spill(sum), n);
    } else {
      LostCarry(Spill(sum), sum, n);
    }
  }

  lemma FoldingZero(sum: nat)
    requires sum == 0
    ensures Folded(sum) == Canonical(sum) && FoldsFit(sum)
  {
    assert FirstFold(sum) == 0;
  }

  lemma {:induction false} TotalBound(ws: seq<word>)
    ensures Total(ws) <= 0xFFFF * |ws|
  {
    if ws != [] {
      TotalBound(ws[1..]);
    }
  }

  lemma {:induction false} WordsLength(o: Order, d: seq<byte>)
    ensures |Words(o, d)| == (|d| + 1) / 2
  {
    if |d| > 1 {
      WordsLength(o, d[2..]);
    }
  }

  /** The largest number of words for which two folds always are enough. */
  const MAX_WORDS: nat := 65538

  lemma SumsThatFit(sum: nat)
    requires sum <= 0xFFFF * MAX_WORDS
    ensures FoldsFit(sum)
  {
    assert FirstFold(sum) / 0x1_0000 <= 1;
    assert sum / 0x1_0000 <= 0x1_0000 && (sum / 0x1_0000 == 0x1_0000 ==> sum % 0x1_0000 <= 0xFFFE);
  }

  /** Up to that length the checksum is the complement of the exact one's complement sum. */
  lemma ChecksumIsExact(o: Order, d: seq<byte>)
    requires |d| <= 2 * MAX_WORDS
    ensures Sum16(o, d) == 0xFFFF - OnesSum(Words(o, d))
  {
    hide FoldsFit, Words, Total, OnesSum, Canonical, Folded;
    var ws := Words(o, d);
    TotalBound(ws);
    WordsLength(o, d);
    OnesSumIsCanonical(ws);
    SumsThatFit(Total(ws));
    FoldingExactly(Total(ws));
  }

  function AllOnes(n: nat): seq<word> {
    if n == 0 then [] else [0xFFFF] + AllOnes(n - 1)
  }

  lemma {:induction false} TotalOfAllOnes(n: nat, w: word)
    ensures |AllOnes(n) + [w]| == n + 1 && Total(AllOnes(n) + [w]) == 0xFFFF * n + w
  {
    if n == 0 {
      assert AllOnes(0) + [w] == [w];
    } else {
      TotalOfAllOnes(n - 1, w);
      assert (AllOnes(n) + [w])[1..] == AllOnes(n - 1) + [w];
    }
  }

  /** One word more and two folds can lose a carry. */
  lemma OneWordMoreFails()
    ensures var ws := AllOnes(MAX_WORDS) + [1];
            |ws| == MAX_WORDS + 1 && Folded(Total(ws)) != OnesSum(ws)
  {
    TotalOfAllOnes(MAX_WORDS, 1);
    OnesSumIsCanonical(AllOnes(MAX_WORDS) + [1]);
  }

  // ----- section 2 of RFC 1071: byte order independence

  lemma {:induction false} SwappedTotal(d: seq<byte>) returns (m: int)
    ensures Total(Words(Big, d)) == 256 * Total(Words(Little, d)) + 0xFFFF * m
    ensures Total(Words(Big, d)) == 0 <==> Total(Words(Little, d)) == 0
  {
    if |d| <= 1 {
      m := 0;
    } else {
      m := SwappedTotal(d[2..]);
      m := m - d[1];
    }
  }

  lemma SwapIsTimes256(c: word) returns (h: int)
    ensures 256 * c == Swap(c) + 0xFFFF * h && (c > 0 ==> Swap(c) > 0)
  {
    h := c / 256;
  }

  lemma SwappedCanonical(s: nat, t: nat, m: int)
    requires s == 256 * t + 0xFFFF * m && (s == 0 <==> t == 0)
    ensures Canonical(s) == Swap(Canonical(t))
  {
    if t != 0 {
      var k := CanonicalQuotient(t);
      var h := SwapIsTimes256(Canonical(t));
      hide Canonical, Swap;
      CanonicalUnique(s, Swap(Canonical(t)), m + 256 * k + h);
    }
  }

  lemma SwapComplements(w: word)
    ensures 0xFFFF - Swap(w) == Swap(0xFFFF - w)
  {
    var h, l := w / 256, w % 256;
    assert 0xFFFF - w == 256 * (255 - h) + (255 - l);
    assert (0xFFFF - w) / 256 == 255 - h && (0xFFFF - w) % 256 == 255 - l;
  }

  lemma StoreOfSwap(w: word)
    ensures Store(Big, Swap(w)) == Store(Little, w)
  {
    var h, l := w / 256, w % 256;
    assert Swap(w) / 256 == l && Swap(w) % 256 == h;
  }

  /** The other byte order gives the checksum with its bytes swapped, so memory holds the same bytes. */
  lemma ByteOrderIndependence(d: seq<byte>)
    requires |d| <= 2 * MAX_WORDS
    ensures Sum16(Big, d) == Swap(Sum16(Little, d))
    ensures Store(Big, Sum16(Big, d)) == Store(Little, Sum16(Little, d))
  {
    hide Words, Total, OnesSum, Canonical, Swap, Store, Sum16;
    ChecksumIsExact(Big, d);
    ChecksumIsExact(Little, d);
    OnesSumIsCanonical(Words(Big, d));
    OnesSumIsCanonical(Words(Little, d));
    var m := SwappedTotal(d);
    SwappedCanonical(Total(Words(Big, d)), Total(Words(Little, d)), m);
    SwapComplements(OnesSum(Words(Little, d)));
    StoreOfSwap(Sum16(Little, d));
  }

  /** The data with the two bytes of every word exchanged. */
  function SwapBytes(d: seq<byte>): seq<byte>
    requires |d| % 2 == 0
  {
    if d == [] then [] else [d[1], d[0]] + SwapBytes(d[2..])
  }

  lemma {:induction false} SwapBytesSwapsOrder(d: seq<byte>)
    requires |d| % 2 == 0
    ensures |SwapBytes(d)| == |d| && Words(Little, SwapBytes(d)) == Words(Big, d)
  {
    if d != [] {
      SwapBytesSwapsOrder(d[2..]);
      assert SwapBytes(d)[2..] == SwapBytes(d[2..]);
    }
  }

  /** Swapping the bytes of every word swaps the bytes of the result. */
  lemma SwappedDataSwapsResult(d: seq<byte>)
    requires |d| % 2 == 0 && |d| <= 2 * MAX_WORDS
    ensures |SwapBytes(d)| == |d| && Sum16(Little, SwapBytes(d)) == Swap(Sum16(Little, d))
  {
    SwapBytesSwapsOrder(d);
    ByteOrderIndependence(d);
  }

  // ----- filling in the checksum field

  function Patch(d: seq<byte>, at: nat, bytes: seq<byte>): seq<byte>
    requires at + |bytes| <= |d|
  {
    d[..at] + bytes + d[at + |bytes|..]
  }

  lemma {:induction false} PatchedTotal(o: Order, d: seq<byte>, at: nat, w: word)
    requires at % 2 == 0 && at + 2 <= |d| && d[at] == d[at + 1] == 0
    ensures Total(Words(o, Patch(d, at, Store(o, w)))) == Total(Words(o, d)) + w
    decreases at
  {
    var p := Patch(d, at, Store(o, w));
    if at == 0 {
      assert p[2..] == d[2..];
    } else {
      PatchedTotal(o, d[2..], at - 2, w);
      assert p[2..] == Patch(d[2..], at - 2, Store(o, w));
    }
  }

  /** Data with its checksum stored in a zeroed, even-aligned field sums to 0xFFFF: it verifies. */
  lemma FilledFieldVerifies(o: Order, d: seq<byte>, at: nat)
    requires at % 2 == 0 && at + 2 <= |d| <= 2 * MAX_WORDS && d[at] == d[at + 1] == 0
    ensures var p := Patch(d, at, Store(o, Sum16(o, d)));
            OnesSum(Words(o, p)) == 0xFFFF && Sum16(o, p) == 0
  {
    var p := Patch(d, at, Store(o, Sum16(o, d)));
    PatchedTotal(o, d, at, Sum16(o, d));
    ChecksumIsExact(o, d);
    ChecksumIsExact(o, p);
    OnesSumIsCanonical(Words(o, d));
    OnesSumIsCanonical(Words(o, p));
    ComplementCompletes(Total(Words(o, d)));
  }

  lemma ComplementCompletes(t: nat)
    ensures Canonical(t + 0xFFFF - Canonical(t)) == 0xFFFF
  {
  }

  // ----- the loops

  lemma {:induction false} WordsSplit(o: Order, d: seq<byte>, k: nat)
    requires k % 2 == 0 && k <= |d|
    ensures Total(Words(o, d)) == Total(Words(o, d[..k])) + Total(Words(o, d[k..]))
    decreases k
  {
    if k == 0 {
      assert d[0..] == d;
    } else {
      WordsSplit(o, d[2..], k - 2);
      assert d[..k][2..] == d[2..][..k - 2] && d[2..][k - 2..] == d[k..];
    }
  }

  /** The sum of the first `k` words of the data. */
  function SumUpTo(o: Order, d: seq<byte>, k: nat): nat
    requires 2 * k <= |d|
  {
    Total(Words(o, d[..2 * k]))
  }

  lemma NoWords(o: Order, d: seq<byte>)
    ensures SumUpTo(o, d, 0) == 0
  {
  }

  lemma NextWord(o: Order, d: seq<byte>, k: nat)
    requires 2 * k + 2 <= |d|
    ensures SumUpTo(o, d, k + 1) == SumUpTo(o, d, k) + WordAt(o, d[2 * k], d[2 * k + 1])
  {
    var e := d[..2 * k + 2];
    WordsSplit(o, e, 2 * k);
    assert e[..2 * k] == d[..2 * k] && e[2 * k..] == [d[2 * k], d[2 * k + 1]];
    assert [d[2 * k], d[2 * k + 1]][2..] == [];
  }

  lemma LastByte(o: Order, d: seq<byte>, k: nat)
    requires 2 * k <= |d| <= 2 * k + 1
    ensures Total(Words(o, d)) == SumUpTo(o, d, k) + if 2 * k < |d| then WordAt(o, d[2 * k], 0) else 0
  {
    WordsSplit(o, d, 2 * k);
    assert d[2 * k..] == if 2 * k < |d| then [d[2 * k]] else [];
  }

  /** The last steps of both loops: fold twice and complement. */
  method FoldAndComplement(total: nat) returns (answer: word)
    ensures answer == 0xFFFF - Folded(total)
  {
    var sum := total / 0x1_0000 + total % 0x1_0000;
    sum := sum + sum / 0x1_0000;
    answer := 0xFFFF - sum % 0x1_0000;
  }

  /** udp_csum over `nbytes` bytes of memory from `ptr`. */
  method UdpCsum(o: Order, mem: array<byte>, ptr: nat, nbytes: nat) returns (answer: word)
    requires ptr + nbytes <= mem.Length
    ensures answer == Sum16(o, mem[ptr..ptr + nbytes])
  {
    ghost var d := mem[ptr..ptr + nbytes];
    hide SumUpTo, WordAt, Words, Total;
    NoWords(o, d);
    var sum: nat := 0;
    var p: nat, left: nat := ptr, nbytes;
    ghost var k: nat := 0;
    while left > 1
      invariant p + left == ptr + nbytes && p == ptr + 2 * k
      invariant sum == SumUpTo(o, d, k)
      decreases left
    {
      NextWord(o, d, k);
      sum := sum + WordAt(o, mem[p], mem[p + 1]);
      p, left, k := p + 2, left - 2, k + 1;
    }
    LastByte(o, d, k);
    if left == 1 {
      sum := sum + WordAt(o, mem[p], 0);
    }
    answer := FoldAndComplement(sum);
  }

  /** csum over `nwords` words of memory from `ptr`: the same sum. */
  method Csum(o: Order, mem: array<byte>, ptr: nat, nwords: nat) returns (answer: word)
    requires ptr + 2 * nwords <= mem.Length
    ensures answer == Sum16(o, mem[ptr..ptr + 2 * nwords])
  {
    ghost var d := mem[ptr..ptr + 2 * nwords];
    hide SumUpTo, WordAt, Words, Total;
    NoWords(o, d);
    var sum: nat := 0;
    var p: nat, left: nat := ptr, nwords;
    ghost var k: nat := 0;
    while left > 0
      invariant k + left == nwords && p == ptr + 2 * k
      invariant sum == SumUpTo(o, d, k)
      decreases left
    {
      NextWord(o, d, k);
      sum := sum + WordAt(o, mem[p], mem[p + 1]);
      p, left, k := p + 2, left - 1, k + 1;
    }
    LastByte(o, d, k);
    answer := FoldAndComplement(sum);
  }
}
