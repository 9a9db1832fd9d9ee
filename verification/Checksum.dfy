/**
 The Internet checksum (RFC 1071) as the echo service and the raw clients compute it, on a
 little-endian host: the header checksum of section 3.1 of RFC 791 and the pseudo-header
 checksum of RFC 768 (without that RFC's rule for a computed zero, which the code lacks).
 */
module Checksum {

  type byte = b: int | 0 <= b < 0x100
  type uint16 = x: int | 0 <= x < 0x1_0000
  type uint32 = x: int | 0 <= x < 0x1_0000_0000
  type int32 = x: int | -0x8000_0000 <= x < 0x8000_0000

  /** The 16-bit word of two consecutive bytes in memory. */
  function Word(lo: byte, hi: byte): uint16 {
    lo + 0x100 * hi
  }

  /** The sum of the words of a buffer; an odd last byte counts as a word by itself. */
  function WordSum(buf: seq<byte>): nat {
    if |buf| == 0 then 0
    else if |buf| == 1 then buf[0]
    else Word(buf[0], buf[1]) + WordSum(buf[2..])
  }

  /** Adds the carries back in until none is left: the one's complement sum. */
  function Fold(sum: nat): uint16 {
    if sum < 0x1_0000 then sum else Fold(sum % 0x1_0000 + sum / 0x1_0000)
  }

  /** The Internet checksum of a buffer: the complement of the one's complement sum. */
  function InternetChecksum(buf: seq<byte>): uint16 {
    0xffff - Fold(WordSum(buf))
  }

  // ----- the fold -----

  /** How many carries the fold adds back in. */
  ghost function Carries(sum: nat): nat {
    if sum < 0x1_0000 then 0 else sum / 0x1_0000 + Carries(sum % 0x1_0000 + sum / 0x1_0000)
  }

  /** Adding a carry back in keeps the remainder by 65535, and keeps the sum from vanishing. */
  lemma {:induction false} FoldKeepsRemainder(sum: nat)
    ensures sum == Fold(sum) + 0xffff * Carries(sum)
    ensures Fold(sum) == 0 <==> sum == 0
  {
    if sum >= 0x1_0000 {
      FoldKeepsRemainder(sum % 0x1_0000 + sum / 0x1_0000);
    }
  }

  /** These two facts determine the fold. */
  lemma FoldIs(sum: nat, f: uint16, q: int)
    requires sum == f + 0xffff * q && (f == 0 <==> sum == 0)
    ensures Fold(sum) == f
  {
    FoldKeepsRemainder(sum);
    var d := q - Carries(sum);
    assert Fold(sum) - f == 0xffff * d;
  }

  /** The fold loop ends with the remainder by 65535, taken in 1 .. 65535 unless the sum is zero. */
  lemma FoldIsRemainder(sum: nat)
    ensures Fold(sum) == if sum == 0 then 0 else (sum - 1) % 0xffff + 1
  {
    if sum > 0 {
      FoldIs(sum, (sum - 1) % 0xffff + 1, (sum - 1) / 0xffff);
    }
  }

  lemma FoldOfSum(a: nat, b: nat)
    ensures Fold(Fold(a) + Fold(b)) == Fold(a + b)
  {
    FoldKeepsRemainder(a);
    FoldKeepsRemainder(b);
    FoldKeepsRemainder(Fold(a) + Fold(b));
    FoldIs(a + b, Fold(Fold(a) + Fold(b)), Carries(a) + Carries(b) + Carries(Fold(a) + Fold(b)));
  }

  lemma {:induction false} WordSumBound(buf: seq<byte>)
    ensures WordSum(buf) <= 0xffff * (|buf| / 2) + 0xff * (|buf| % 2)
  {
    if |buf| > 1 {
      WordSumBound(buf[2..]);
    }
  }

  // ----- the two programs -----

  lemma {:induction false} WordSumSplit(a: seq<byte>, b: seq<byte>)
    requires |a| % 2 == 0
    ensures WordSum(a + b) == WordSum(a) + WordSum(b)
  {
    if a == [] {
      assert a + b == b;
    } else {
      assert (a + b)[2..] == a[2..] + b;
      WordSumSplit(a[2..], b);
    }
  }

  /** `checksum` of server and client.  The sum is a uint32_t, so it wraps; it does not on
      any buffer of at most 131074 bytes, which every permitted datagram with its
      pseudo-header is (at most 65547 bytes). */
  method ComputeChecksum(buf: seq<byte>) returns (check: uint16)
    ensures check == 0xffff - Fold(Wrap(WordSum(buf)))
    ensures |buf| <= 131074 ==> check == InternetChecksum(buf)
  {
    hide Fold, WordSum, Wrap;
    var sum := SumWords(buf);
    check := FoldLoop(sum);
    if |buf| <= 131074 {
      NoWrap(buf);
    }
  }

  lemma NoWrap(buf: seq<byte>)
    requires |buf| <= 131074
    ensures Wrap(WordSum(buf)) == WordSum(buf)
  {
    hide WordSum;
    WordSumBound(buf);
    assert WordSum(buf) < 0x1_0000_0000;
  }

  /** The value a uint32_t keeps of a number. */
  function Wrap(x: nat): uint32 {
    x % 0x1_0000_0000
  }

  /** The first loop of `checksum`, and the odd byte after it. */
  method SumWords(buf: seq<byte>) returns (sum: uint32)
    ensures sum == Wrap(WordSum(buf))
  {
    assert Wrap(WordSum([])) == 0;
    hide WordSum, Wrap, Word;
    sum := 0;
    var at, len := 0, |buf|;
    while len > 1
      invariant 0 <= len && at + len == |buf| && at % 2 == 0
      invariant sum == Wrap(WordSum(buf[..at]))
    {
      WordSumExtend(buf, at);
      WrapAdd(WordSum(buf[..at]), Word(buf[at], buf[at + 1]));
      sum := Wrap(sum + Word(buf[at], buf[at + 1]));
      at, len := at + 2, len - 2;
    }
    assert buf == buf[..at] + buf[at..];
    WordSumSplit(buf[..at], buf[at..]);
    if len != 0 {
      WrapAdd(WordSum(buf[..at]), buf[at]);
      sum := Wrap(sum + buf[at]);
    }
  }

  lemma WrapAdd(a: nat, b: nat)
    ensures Wrap(Wrap(a) + b) == Wrap(a + b)
  {
    assert a + b == a % 0x1_0000_0000 + b + 0x1_0000_0000 * (a / 0x1_0000_0000);
  }

  lemma WordSumExtend(buf: seq<byte>, at: nat)
    requires at + 1 < |buf| && at % 2 == 0
    ensures WordSum(buf[..at + 2]) == WordSum(buf[..at]) + Word(buf[at], buf[at + 1])
  {
    var two := [buf[at], buf[at + 1]];
    assert buf[..at + 2] == buf[..at] + two;
    WordSumSplit(buf[..at], two);
    assert WordSum(two) == Word(two[0], two[1]) + WordSum([]);
  }

  /** The second loop of `checksum`. */
  method FoldLoop(total: uint32) returns (check: uint16)
    ensures check == 0xffff - Fold(total)
  {
    var sum := total;
    while sum / 0x1_0000 != 0
      invariant Fold(sum) == Fold(total)
      decreases sum
    {
      sum := sum % 0x1_0000 + sum / 0x1_0000;
    }
    check := 0xffff - sum;
  }

  /** `calculate_checksum` of the raw clients: a signed sum and a fold of only two steps.
      Whenever the sum is an int at all, the result is the same. */
  method CalculateChecksum(buf: seq<byte>) returns (answer: uint16)
    requires WordSum(buf) < 0x8000_0000
    ensures answer == InternetChecksum(buf)
  {
    hide Fold;
    var sum: int32 := 0;
    var w, nleft := 0, |buf|;
    while nleft > 1
      invariant 0 <= nleft && w + nleft == |buf|
      invariant 0 <= sum && sum + WordSum(buf[w..]) == WordSum(buf)
    {
      assert buf[w..][2..] == buf[w + 2..];
      sum := sum + Word(buf[w], buf[w + 1]);
      w, nleft := w + 2, nleft - 2;
    }
    if nleft == 1 {
      sum := sum + buf[w];
    }
    answer := FoldTwice(sum);
  }

  /** The end of `calculate_checksum`. */
  method FoldTwice(total: int32) returns (answer: uint16)
    requires 0 <= total
    ensures answer == 0xffff - Fold(total)
  {
    hide Fold;
    TwoStepFold(total);
    var sum: int32 := total / 0x1_0000 + total % 0x1_0000;
    sum := sum + sum / 0x1_0000;
    answer := 0xffff - sum % 0x1_0000;
  }

  /** Two steps are enough for a sum that fits into an int. */
  lemma TwoStepFold(sum: nat)
    requires sum < 0x8000_0000
    ensures var once := sum / 0x1_0000 + sum % 0x1_0000;
      once + once / 0x1_0000 < 0x2_0000 && (once + once / 0x1_0000) % 0x1_0000 == Fold(sum)
  {
    var once := sum / 0x1_0000 + sum % 0x1_0000;
    assert once < 0x1_8000;
    if once < 0x1_0000 {
      FoldIs(sum, once, sum / 0x1_0000);
    } else {
      FoldIs(sum, once - 0xffff, sum / 0x1_0000 + 1);
    }
  }

  function Ones(n: nat): seq<byte> {
    seq(n, _ => 0xff)
  }

  /** Every buffer of up to 65537 bytes meets the condition of `CalculateChecksum`; no larger
      bound would do, since on a longer one of all ones the signed sum overflows. */
  lemma SignedSumFits(buf: seq<byte>, n: nat)
    requires n > 0x1_0001
    ensures |buf| <= 0x1_0001 ==> WordSum(buf) < 0x8000_0000
    ensures WordSum(Ones(n)) >= 0x8000_0000
  {
    WordSumBound(buf);
    SumOfOnes(n);
    assert n / 2 >= 0x8001;
  }

  lemma {:induction false} SumOfOnes(n: nat)
    ensures WordSum(Ones(n)) == 0xffff * (n / 2) + 0xff * (n % 2)
  {
    if n > 1 {
      assert Ones(n)[2..] == Ones(n - 2);
      SumOfOnes(n - 2);
    }
  }

  // ----- a stored checksum verifies -----

  function Low(x: uint16): byte {
    x % 0x100
  }

  function High(x: uint16): byte {
    x / 0x100
  }

  /** Storing a uint16_t at an even offset. */
  function Store(buf: seq<byte>, at: nat, x: uint16): (r: seq<byte>)
    requires at + 1 < |buf|
    ensures |r| == |buf|
  {
    buf[at := Low(x)][at + 1 := High(x)]
  }

  lemma {:induction false} WordSumStore(buf: seq<byte>, at: nat, x: uint16)
    requires at + 1 < |buf| && at % 2 == 0
    ensures WordSum(Store(buf, at, x)) == WordSum(Store(buf, at, 0)) + x
  {
    if at == 0 {
      assert Store(buf, 0, x)[2..] == buf[2..] == Store(buf, 0, 0)[2..];
    } else {
      assert Store(buf, at, x)[2..] == Store(buf[2..], at - 2, x);
      assert Store(buf, at, 0)[2..] == Store(buf[2..], at - 2, 0);
      WordSumStore(buf[2..], at - 2, x);
    }
  }

  /** A buffer whose check field holds the checksum computed with that field zero sums to
      all ones, so its checksum is 0, whatever the rest is. */
  lemma StoredChecksumVerifies(buf: seq<byte>, at: nat)
    requires at + 1 < |buf| && at % 2 == 0
    ensures InternetChecksum(Store(buf, at, InternetChecksum(Store(buf, at, 0)))) == 0
  {
    var rest := WordSum(Store(buf, at, 0));
    var check := InternetChecksum(Store(buf, at, 0));
    WordSumStore(buf, at, check);
    FoldKeepsRemainder(rest);
    FoldIs(rest + check, 0xffff, Carries(rest));
  }

  // ----- the laws of section 2 of RFC 1071 -----

  function Words(buf: seq<byte>): seq<uint16> {
    if |buf| == 0 then []
    else if |buf| == 1 then [buf[0]]
    else [Word(buf[0], buf[1])] + Words(buf[2..])
  }

  function Sum(ws: seq<uint16>): nat {
    if ws == [] then 0 else ws[0] + Sum(ws[1..])
  }

  lemma {:induction false} WordSumIsSum(buf: seq<byte>)
    ensures WordSum(buf) == Sum(Words(buf))
  {
    if |buf| > 1 {
      WordSumIsSum(buf[2..]);
      assert Words(buf)[1..] == Words(buf[2..]);
    }
  }

  lemma {:induction false} SumWithout(ws: seq<uint16>, i: nat)
    requires i < |ws|
    ensures Sum(ws) == ws[i] + Sum(ws[..i] + ws[i + 1..])
  {
    if i == 0 {
      assert ws[..0] + ws[1..] == ws[1..];
    } else {
      SumWithout(ws[1..], i - 1);
      assert (ws[..i] + ws[i + 1..])[1..] == ws[1..][..i - 1] + ws[1..][i..];
    }
  }

  lemma {:induction false} SumOfPermutation(a: seq<uint16>, b: seq<uint16>)
    requires multiset(a) == multiset(b)
    ensures Sum(a) == Sum(b)
  {
    if a == [] {
      assert |multiset(b)| == 0;
    } else {
      var i := PositionOf(b, a[0]);
      SumWithout(b, i);
      MultisetWithout(b, i);
      MultisetWithout(a, 0);
      assert a[..0] + a[1..] == a[1..];
      SumOfPermutation(a[1..], b[..i] + b[i + 1..]);
    }
  }

  lemma PositionOf(ws: seq<uint16>, w: uint16) returns (i: nat)
    requires w in multiset(ws)
    ensures i < |ws| && ws[i] == w
  {
    i :| 0 <= i < |ws| && ws[i] == w;
  }

  lemma MultisetWithout(ws: seq<uint16>, i: nat)
    requires i < |ws|
    ensures multiset(ws[..i] + ws[i + 1..]) == multiset(ws) - multiset{ws[i]}
  {
    assert ws == ws[..i] + [ws[i]] + ws[i + 1..];
  }

  /** The order of the words does not matter. */
  lemma ChecksumOfPermutation(a: seq<byte>, b: seq<byte>)
    requires multiset(Words(a)) == multiset(Words(b))
    ensures InternetChecksum(a) == InternetChecksum(b)
  {
    WordSumIsSum(a);
    WordSumIsSum(b);
    SumOfPermutation(Words(a), Words(b));
  }

  /** A buffer cut at an even offset is summed in parts, which are then combined; padding an
      odd one with a zero byte changes nothing. */
  lemma ChecksumInParts(a: seq<byte>, b: seq<byte>)
    requires |a| % 2 == 0
    ensures InternetChecksum(a + b) == 0xffff - Fold((0xffff - InternetChecksum(a)) + (0xffff - InternetChecksum(b)))
    ensures |b| % 2 == 1 ==> InternetChecksum(a + b + [0]) == InternetChecksum(a + b)
  {
    hide Fold, WordSum;
    WordSumSplit(a, b);
    FoldOfSum(WordSum(a), WordSum(b));
    if |b| % 2 == 1 {
      PaddedSum(b);
      WordSumSplit(a, b + [0]);
      assert a + b + [0] == a + (b + [0]);
    }
  }

  lemma {:induction false} PaddedSum(b: seq<byte>)
    requires |b| % 2 == 1
    ensures WordSum(b + [0]) == WordSum(b)
  {
    if |b| == 1 {
      assert WordSum(b + [0]) == Word(b[0], 0) + WordSum((b + [0])[2..]);
    } else {
      assert (b + [0])[2..] == b[2..] + [0];
      PaddedSum(b[2..]);
    }
  }

  function SwapBytes(buf: seq<byte>): (r: seq<byte>)
    ensures |r| == if |buf| % 2 == 0 then |buf| else |buf| + 1
  {
    if |buf| == 0 then []
    else if |buf| == 1 then [0, buf[0]]
    else [buf[1], buf[0]] + SwapBytes(buf[2..])
  }

  function Swap16(x: uint16): uint16 {
    Word(High(x), Low(x))
  }

  lemma {:induction false} SwappedSum(buf: seq<byte>) returns (q: int)
    ensures 0x100 * WordSum(buf) == WordSum(SwapBytes(buf)) + 0xffff * q
    ensures WordSum(SwapBytes(buf)) == 0 <==> WordSum(buf) == 0
  {
    if |buf| == 0 {
      q := 0;
    } else if |buf| == 1 {
      q := 0;
      assert WordSum([0, buf[0]]) == Word(0, buf[0]) + WordSum([]);
    } else {
      q := SwappedSum(buf[2..]);
      q := q + buf[1];
      assert SwapBytes(buf)[2..] == SwapBytes(buf[2..]);
    }
  }

  /** The sum as RFC 1071 defines it: words in network order, an odd last byte padded with zero. */
  function NetworkSum(buf: seq<byte>): nat {
    if |buf| == 0 then 0
    else if |buf| == 1 then 0x100 * (buf[0] as int)
    else 0x100 * (buf[0] as int) + buf[1] + NetworkSum(buf[2..])
  }

  lemma {:induction false} SwappedIsNetworkSum(buf: seq<byte>)
    ensures WordSum(SwapBytes(buf)) == NetworkSum(buf)
  {
    if |buf| == 1 {
      assert WordSum([0, buf[0]]) == Word(0, buf[0]) + WordSum([]);
    } else if |buf| > 1 {
      assert SwapBytes(buf)[2..] == SwapBytes(buf[2..]);
      SwappedIsNetworkSum(buf[2..]);
    }
  }

  /** What the program computes in host order and stores as it is, is the checksum the standard
      defines in network order, most significant byte first. */
  lemma HostOrderIsEnough(buf: seq<byte>)
    ensures Swap16(InternetChecksum(buf)) == 0xffff - Fold(NetworkSum(buf))
  {
    hide Fold, Swap16;
    ChecksumOfSwappedBytes(buf);
    SwappedIsNetworkSum(buf);
  }

  lemma Swap16Facts(x: uint16)
    ensures Swap16(x) == 0x100 * x - 0xffff * High(x)
    ensures Swap16(0xffff - x) == 0xffff - Swap16(x)
    ensures Swap16(x) == 0 <==> x == 0
  {
    assert x == Low(x) + 0x100 * High(x);
    assert 0xffff - x == (0xff - Low(x)) + 0x100 * (0xff - High(x));
    assert Low(0xffff - x) == 0xff - Low(x) && High(0xffff - x) == 0xff - High(x);
  }

  /** Byte order independence: swapping the bytes of every word swaps those of the checksum,
      so summing and storing in the host's order gives the bytes the network expects. */
  lemma ChecksumOfSwappedBytes(buf: seq<byte>)
    ensures InternetChecksum(SwapBytes(buf)) == Swap16(InternetChecksum(buf))
  {
    var sum, swapped := WordSum(buf), WordSum(SwapBytes(buf));
    var q := SwappedSum(buf);
    FoldKeepsRemainder(sum);
    var f := Fold(sum);
    Swap16Facts(f);
    FoldIs(swapped, Swap16(f), 0x100 * Carries(sum) + High(f) - q);
  }
}
