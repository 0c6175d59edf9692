/** The Internet checksum of internal/packet/checksum.go against the end-around-carry
    sum of section 1 of RFC 1071. */
module Checksum {
  import opened Bytes
  import opened Numbers

  const WORD_MAX: int := 0xffff
  const UINT32_SIZE: int := 0x1_0000_0000

  // ---- The arithmetic of the code: plain sum, then fold the carries ----

  /** Sum of the big-endian words of `data`; an odd last byte is the high half of a word. */
  function WordSum(data: seq<byte>): nat {
    if |data| == 0 then 0
    else if |data| == 1 then Uint16(data[0], 0)
    else Uint16(data[0], data[1]) + WordSum(data[2..])
  }

  function WordCount(data: seq<byte>): nat {
    (|data| + 1) / 2
  }

  /** One turn of the carry loop: low half plus carries. */
  function FoldOnce(sum: nat): nat {
    sum % 0x1_0000 + sum / 0x1_0000
  }

  /** The 16-bit representative of `n` modulo 65535 in which only 0 itself is 0. */
  function Reduce(n: nat): (r: uint16)
    ensures r == 0 <==> n == 0
  {
    if n == 0 then 0 else 1 + (n - 1) % WORD_MAX
  }

  /** What Reduce takes away, in units of 65535. */
  function Reduced(n: nat): (q: nat)
    ensures n == Reduce(n) + q * WORD_MAX
  {
    if n == 0 then 0 else (n - 1) / WORD_MAX
  }

  /** The value Checksum returns: the uint32 accumulator wraps, then is folded and inverted. */
  function InternetChecksum(data: seq<byte>): uint16 {
    Complement(WordSum(data))
  }

  function Complement(sum: nat): uint16 {
    WORD_MAX - Reduce(sum % UINT32_SIZE)
  }

  // ---- The standard's arithmetic: add one word at a time, carry straight back in ----

  function EndAroundAdd(a: uint16, b: uint16): uint16 {
    if a + b > WORD_MAX then a + b - WORD_MAX else a + b
  }

  function OnesComplementSum(acc: uint16, data: seq<byte>): uint16
    decreases |data|
  {
    if |data| == 0 then acc
    else if |data| == 1 then EndAroundAdd(acc, Uint16(data[0], 0))
    else OnesComplementSum(EndAroundAdd(acc, Uint16(data[0], data[1])), data[2..])
  }

  function StandardChecksum(data: seq<byte>): uint16 {
    WORD_MAX - OnesComplementSum(0, data)
  }

  // ---- The two loops ----

  method Checksum(input: seq<byte>) returns (r: uint16)
    ensures r == InternetChecksum(input)
  {
    hide Reduce;
    var data := input;
    var sum: uint32 := 0;
    ghost var added: nat := 0;
    while |data| >= 2
      invariant sum == added % UINT32_SIZE
      invariant added + WordSum(data) == WordSum(input)
    {
      WrapAdd(added, Uint16(data[0], data[1]));
      sum := (sum + Uint16(data[0], data[1])) % UINT32_SIZE;
      added := added + Uint16(data[0], data[1]);
      data := data[2..];
    }
    if |data| == 1 {
      WrapAdd(added, Uint16(data[0], 0));
      sum := (sum + Uint16(data[0], 0)) % UINT32_SIZE;
    }
    ghost var total := sum;
    ghost var turns := 0;
    while sum / 0x1_0000 != 0
      invariant Reduce(sum) == Reduce(total)
      invariant turns <= 2
      invariant turns == 1 ==> sum <= 0x1_fffe
      invariant turns == 2 ==> sum <= WORD_MAX
      decreases sum
    {
      FoldKeepsReduce(sum);
      sum := FoldOnce(sum);
      turns := turns + 1;
    }
    ReduceSmall(sum);
    r := WORD_MAX - sum;
  }

  lemma WrapAdd(a: nat, b: nat)
    ensures (a % UINT32_SIZE + b) % UINT32_SIZE == (a + b) % UINT32_SIZE
  {
    ModPlus(a, b, UINT32_SIZE);
  }

  lemma ReduceSmall(n: nat)
    requires n <= WORD_MAX
    ensures Reduce(n) == n
  {
  }

  lemma ReduceUnique(n: nat, r: uint16, q: int)
    requires n == r + q * WORD_MAX && (r == 0 <==> n == 0)
    ensures Reduce(n) == r
  {
    if n > 0 {
      ModUnique(n - 1, r - 1, q, WORD_MAX);
    }
  }

  /** Folding strictly shrinks, keeps the representative and needs at most two turns for a uint32. */
  lemma FoldKeepsReduce(sum: nat)
    requires sum / 0x1_0000 != 0
    ensures Reduce(FoldOnce(sum)) == Reduce(sum)
    ensures FoldOnce(sum) < sum
    ensures sum < UINT32_SIZE ==> FoldOnce(sum) <= 0x1_fffe
    ensures sum <= 0x1_fffe ==> FoldOnce(sum) <= WORD_MAX
  {
    var carry := sum / 0x1_0000;
    var r := Reduce(sum);
    var q := Reduced(sum);
    ReduceUnique(FoldOnce(sum), r, q - carry);
  }

  // ---- The code's sum against the standard's ----

  lemma {:induction false} OnesComplementSumReduces(acc: uint16, data: seq<byte>)
    ensures OnesComplementSum(acc, data) == Reduce(acc + WordSum(data))
    decreases |data|
  {
    if |data| == 0 {
      ReduceSmall(acc);
    } else if |data| == 1 {
      EndAroundReduces(acc, Uint16(data[0], 0), 0);
      ReduceSmall(EndAroundAdd(acc, Uint16(data[0], 0)));
    } else {
      var word := Uint16(data[0], data[1]);
      EndAroundReduces(acc, word, WordSum(data[2..]));
      OnesComplementSumReduces(EndAroundAdd(acc, word), data[2..]);
    }
  }

  lemma EndAroundReduces(a: uint16, b: uint16, rest: nat)
    ensures Reduce(EndAroundAdd(a, b) + rest) == Reduce(a + b + rest)
  {
    SameReduce(EndAroundAdd(a, b) + rest, a + b + rest, if a + b > WORD_MAX then -1 else 0);
  }

  lemma SameReduce(m: nat, n: nat, q: int)
    requires m == n + q * WORD_MAX && (m == 0 <==> n == 0)
    ensures Reduce(m) == Reduce(n)
  {
    if m > 0 {
      ModUnique(m - 1, n - 1, q, WORD_MAX);
    }
  }

  /** Equal representatives mean a difference that is a multiple of 65535. */
  lemma SameReduceInverse(m: nat, n: nat) returns (q: int)
    requires Reduce(m) == Reduce(n)
    ensures m == n + q * WORD_MAX && (m == 0 <==> n == 0)
  {
    q := Reduced(m) - Reduced(n);
  }

  /** Exactly when the code returns the standard's checksum, for data of any length: the number
      of lost 2^32 carries must be a multiple of 65535, and none may be lost into a zero sum. */
  lemma MatchesStandard(data: seq<byte>)
    ensures InternetChecksum(data) == StandardChecksum(data)
            <==> var lost := WordSum(data) / UINT32_SIZE;
                 lost % WORD_MAX == 0 && (WordSum(data) % UINT32_SIZE == 0 ==> lost == 0)
  {
    OnesComplementSumReduces(0, data);
    var sum, lost := WordSum(data), WordSum(data) / UINT32_SIZE;
    var low := sum % UINT32_SIZE;
    LostCarries(low, lost);
  }

  lemma LostCarries(low: nat, lost: nat)
    ensures Reduce(low) == Reduce(low + lost * UINT32_SIZE)
            <==> lost % WORD_MAX == 0 && (low == 0 ==> lost == 0)
  {
    var sum := low + lost * UINT32_SIZE;
    assert sum == low + lost + lost * 0x1_0001 * WORD_MAX;
    if Reduce(low) == Reduce(sum) {
      var q := SameReduceInverse(low, sum);
      assert lost == (-q - lost * 0x1_0001) * WORD_MAX;
    } else if lost % WORD_MAX == 0 && (low == 0 ==> lost == 0) {
      SameReduce(low, sum, -(lost / WORD_MAX) - lost * 0x1_0001);
    }
  }

  lemma {:induction false} WordSumBound(data: seq<byte>)
    ensures WordSum(data) <= WordCount(data) * WORD_MAX
    decreases |data|
  {
    if |data| > 1 {
      WordSumBound(data[2..]);
    }
  }

  function AllOnes(n: nat): seq<byte> {
    seq(n, _ => 0xff)
  }

  lemma {:induction false} WordSumAllOnes(n: nat)
    ensures WordSum(AllOnes(n)) == n / 2 * WORD_MAX + n % 2 * 0xff00
  {
    if n > 1 {
      assert AllOnes(n)[2..] == AllOnes(n - 2);
      WordSumAllOnes(n - 2);
    }
  }

  /** The uint32 accumulator cannot overflow exactly up to 65537 words. */
  lemma OverflowBound(n: nat)
    ensures (forall data: seq<byte> | |data| == n :: WordSum(data) < UINT32_SIZE) <==> (n + 1) / 2 <= 0x1_0001
  {
    forall data: seq<byte> | |data| == n && (n + 1) / 2 <= 0x1_0001
      ensures WordSum(data) < UINT32_SIZE
    {
      WordSumBound(data);
    }
    WordSumAllOnes(n);
    assert |AllOnes(n)| == n;
  }

  /** Up to 65537 words the code computes the standard's checksum. */
  lemma RefinesStandard(data: seq<byte>)
    requires WordCount(data) <= 0x1_0001
    ensures InternetChecksum(data) == StandardChecksum(data)
  {
    WordSumBound(data);
    var sum := WordSum(data);
    assert sum < UINT32_SIZE;
    assert sum / UINT32_SIZE == 0;
    MatchesStandard(data);
  }

  /** One word more, and the checksum can be wrong: on 65538 and up to 131074 words of ones it always
      is, the sum passing 2^32 once and the carry being lost. */
  lemma WrongChecksums(n: nat)
    requires n % 2 == 0 && 0x1_0002 <= n / 2 <= 0x2_0002
    ensures WordCount(AllOnes(n)) == n / 2
    ensures InternetChecksum(AllOnes(n)) != StandardChecksum(AllOnes(n))
  {
    hide InternetChecksum, StandardChecksum, WordSum;
    WordSumAllOnes(n);
    MatchesStandard(AllOnes(n));
    assert WordSum(AllOnes(n)) / UINT32_SIZE == 1;
  }

  /** The shortest such buffer. */
  lemma FirstWrongChecksum()
    ensures exists data: seq<byte> :: WordCount(data) == 0x1_0002 && InternetChecksum(data) != StandardChecksum(data)
  {
    hide AllOnes, InternetChecksum, StandardChecksum;
    WrongChecksums(131076);
  }

  // ---- Writing the checksum into the packet, and damaging the packet ----

  lemma {:induction false} WordSumPatch(data: seq<byte>, k: nat, v: uint16)
    requires k % 2 == 0 && k + 2 <= |data|
    ensures WordSum(Patch(data, k, v)) == WordSum(data) - Uint16(data[k], data[k + 1]) + v
    decreases |data|
  {
    var r := Patch(data, k, v);
    if k == 0 {
      assert r[2..] == data[2..];
    } else {
      assert r[2..] == Patch(data[2..], k - 2, v);
      WordSumPatch(data[2..], k - 2, v);
    }
  }

  /** Adding the complement of a uint32's representative never wraps and gives all ones. */
  lemma ComplementFills(low: uint32)
    ensures low + (WORD_MAX - Reduce(low)) < UINT32_SIZE
    ensures Reduce(low + (WORD_MAX - Reduce(low))) == WORD_MAX
  {
    var r: int := Reduce(low);
    var q := Reduced(low);
    // 2^32 is 1 modulo 65535, so the last multiples fit
    assert q <= 0x1_0000;
    var full: int := low + (WORD_MAX - r);
    ReduceUnique(full, WORD_MAX, q);
  }

  /** A buffer whose checksum was stored into a zero field at an even offset sums to zero:
      any content, any length, wrapped accumulator included. */
  lemma SelfVerifying(data: seq<byte>, k: nat)
    requires k % 2 == 0 && k + 2 <= |data| && data[k] == data[k + 1] == 0
    ensures InternetChecksum(Patch(data, k, InternetChecksum(data))) == 0
  {
    var c := InternetChecksum(data);
    WordSumPatch(data, k, c);
    assert WordSum(Patch(data, k, c)) == WordSum(data) + c;
    ComplementStored(WordSum(data));
  }

  lemma ComplementStored(sum: nat)
    ensures Complement(sum + Complement(sum)) == 0
  {
    var low, c := sum % UINT32_SIZE, Complement(sum);
    ComplementFills(low);
    ModUnique(low + c, sum + c, -(sum / UINT32_SIZE), UINT32_SIZE);
  }

  ghost predicate DiffersOnlyAt(a: seq<byte>, b: seq<byte>, i: nat) {
    && i < |a| == |b|
    && a[i] != b[i]
    && forall j | 0 <= j < |a| && j != i :: a[j] == b[j]
  }

  /** What replacing byte `i` of `a` by that of `b` adds to the word sum. */
  function WordChange(a: seq<byte>, b: seq<byte>, i: nat): int
    requires i < |a| == |b|
  {
    var was: int, now: int := a[i], b[i];
    if i % 2 == 0 then (now - was) * 0x100 else now - was
  }

  lemma {:induction false} WordSumOneByte(a: seq<byte>, b: seq<byte>, i: nat)
    requires DiffersOnlyAt(a, b, i)
    ensures WordSum(b) == WordSum(a) + WordChange(a, b, i)
    decreases |a|
  {
    if i < 2 {
      assert |a| > 1 ==> a[2..] == b[2..];
    } else {
      assert DiffersOnlyAt(a[2..], b[2..], i - 2);
      WordSumOneByte(a[2..], b[2..], i - 2);
    }
  }

  /** Changing one byte always changes the checksum, whatever the length. */
  lemma OneByteChangesChecksum(a: seq<byte>, b: seq<byte>, i: nat)
    requires DiffersOnlyAt(a, b, i)
    ensures InternetChecksum(a) != InternetChecksum(b)
  {
    WordSumOneByte(a, b, i);
    SmallChangeShows(WordSum(a), WordSum(b), WordChange(a, b, i));
  }

  lemma SmallChangeShows(x: nat, y: nat, change: int)
    requires y == x + change && change != 0
    requires -0x100 < change < 0x100 || (change % 0x100 == 0 && -0x1_0000 < change < 0x1_0000)
    ensures Complement(x) != Complement(y)
  {
    var lowX, lowY := x % UINT32_SIZE, y % UINT32_SIZE;
    var wraps := y / UINT32_SIZE - x / UINT32_SIZE;
    assert lowY == lowX + change - wraps * UINT32_SIZE;
    // 2^32 - 1 is 65537 times 65535: what is left of the difference is too small for a multiple
    var left := change - wraps;
    assert lowY == lowX + left - wraps * 0x1_0001 * WORD_MAX;
    assert -1 <= wraps <= 1 && -WORD_MAX < left < WORD_MAX;
    assert left == 0 ==> (lowX == 0) != (lowY == 0);
    if Reduce(lowX) == Reduce(lowY) {
      var q := SameReduceInverse(lowY, lowX);
    }
  }
}
