/** Remainders, powers of two, and the unit of durations. */
module Numbers {
  /** In nanoseconds. */
  const SECOND: int := 1_000_000_000

  /** Numbers that differ by a multiple of m have the same remainder. */
  lemma ModUnique(a: int, b: int, q: int, m: int)
    requires m > 0 && a == b + q * m
    ensures a % m == b % m
  {
    var d := a / m - b / m - q;
    assert d * m == b % m - a % m by {
      assert a / m * m == a - a % m && b / m * m == b - b % m;
      assert d * m == a / m * m - b / m * m - q * m;
    }
  }

  lemma Cancel(a: int, b: int, m: int)
    requires m > 0 && a * m == b * m
    ensures a == b
  {
  }

  lemma ModPlus(a: int, b: int, m: int)
    requires m > 0
    ensures (a % m + b) % m == (a + b) % m
  {
    assert a == a / m * m + a % m;
    ModUnique(a % m + b, a + b, -(a / m), m);
  }

  lemma ModSmall(a: nat, m: nat)
    requires a < m
    ensures a % m == a
  {
  }

  function Pow2(n: nat): (p: nat)
    ensures p > 0
  {
    if n == 0 then 1 else 2 * Pow2(n - 1)
  }
}

/** Bytes, big-endian fields and the two result types every component shares.
    Go's fixed-width integers are subset types of `int`; a shift or mask by a constant
    becomes a division or remainder by the matching power of two. */
module Bytes {
  import opened Numbers

  type byte = x: int | 0 <= x < 0x100
  type uint16 = x: int | 0 <= x < 0x1_0000
  type uint32 = x: int | 0 <= x < 0x1_0000_0000

  datatype Option<+T> = None | Some(value: T)

  datatype Result<+T, +E> = Ok(value: T) | Err(error: E)

  /** encoding/binary BigEndian.Uint16 */
  function Uint16(high: byte, low: byte): uint16 {
    high * 0x100 + low
  }

  /** encoding/binary BigEndian.PutUint16: the two bytes with this value. */
  function PutUint16(v: uint16): (s: seq<byte>)
    ensures |s| == 2 && Uint16(s[0], s[1]) == v
  {
    SplitUint16(v);
    var high: byte, low: byte :| Uint16(high, low) == v;
    [high, low]
  }

  /** The number whose digits to base 256 these are, the most significant first. */
  function BigEndian(s: seq<byte>): nat {
    if s == [] then 0 else BigEndian(s[..|s| - 1]) * 0x100 + s[|s| - 1]
  }

  /** encoding/binary BigEndian.Uint32 */
  function Uint32(s: seq<byte>): uint32
    requires |s| == 4
  {
    FourBytes(s);
    BigEndian(s)
  }

  /** encoding/binary BigEndian.PutUint32: the four bytes with this value. */
  function PutUint32(v: uint32): (s: seq<byte>)
    ensures |s| == 4 && Uint32(s) == v
  {
    SplitUint32(v);
    Uint32Unique(v);
    var a: byte, b: byte, c: byte, d: byte :| Uint32([a, b, c, d]) == v;
    [a, b, c, d]
  }

  lemma FourBytes(s: seq<byte>)
    requires |s| == 4
    ensures BigEndian(s) == Uint16(s[0], s[1]) * 0x1_0000 + Uint16(s[2], s[3])
  {
    assert s[..3][..2] == s[..2] && s[..2][..1] == s[..1] && s[..1][..0] == [];
    assert BigEndian(s[..1]) == s[0];
    assert BigEndian(s[..2]) == Uint16(s[0], s[1]);
    assert BigEndian(s[..3]) == Uint16(s[0], s[1]) * 0x100 + s[2];
  }

  lemma SplitUint16(v: uint16)
    ensures Uint16(v / 0x100, v % 0x100) == v
  {
  }

  lemma SplitUint32(v: uint32)
    ensures Uint32([v / 0x100_0000, v / 0x1_0000 % 0x100, v / 0x100 % 0x100, v % 0x100]) == v
  {
    hide BigEndian;
    FourBytes([v / 0x100_0000, v / 0x1_0000 % 0x100, v / 0x100 % 0x100, v % 0x100]);
    var high, low := v / 0x1_0000, v % 0x1_0000;
    Quotient(v, high / 0x100, high % 0x100 * 0x1_0000 + low, 0x100_0000);
    Quotient(v, high * 0x100 + low / 0x100, low % 0x100, 0x100);
    Quotient(high * 0x100 + low / 0x100, high, low / 0x100, 0x100);
    SplitUint16(high);
    SplitUint16(low);
  }

  /** q is the quotient and r the remainder of v by m. */
  lemma Quotient(v: int, q: int, r: int, m: int)
    requires v == q * m + r && 0 <= r < m
    ensures v / m == q && v % m == r
  {
    Remainder(r, m);
    ModUnique(v, r, q, m);
    assert v == v / m * m + v % m;
    Cancel(v / m, q, m);
  }

  lemma Remainder(r: int, m: int)
    requires 0 <= r < m
    ensures r % m == r
  {
  }

  lemma SameUint16(a: byte, b: byte, c: byte, d: byte)
    requires Uint16(a, b) == Uint16(c, d)
    ensures a == c && b == d
  {
  }

  lemma SameHalves(a: uint16, b: uint16, c: uint16, d: uint16)
    requires a * 0x1_0000 + b == c * 0x1_0000 + d
    ensures a == c && b == d
  {
  }

  lemma Uint32Unique(v: uint32)
    ensures forall a: byte, b: byte, c: byte, d: byte, e: byte, f: byte, g: byte, h: byte |
              Uint32([a, b, c, d]) == v && Uint32([e, f, g, h]) == v :: a == e && b == f && c == g && d == h
  {
    hide Uint16, BigEndian;
    forall a: byte, b: byte, c: byte, d: byte, e: byte, f: byte, g: byte, h: byte |
      Uint32([a, b, c, d]) == v && Uint32([e, f, g, h]) == v
      ensures a == e && b == f && c == g && d == h
    {
      FourBytes([a, b, c, d]);
      FourBytes([e, f, g, h]);
      SameHalves(Uint16(a, b), Uint16(c, d), Uint16(e, f), Uint16(g, h));
      SameUint16(a, b, e, f);
      SameUint16(c, d, g, h);
    }
  }

  /** The most significant byte comes first. */
  lemma BigEndian16(v: uint16)
    ensures PutUint16(v) == [v / 0x100, v % 0x100]
  {
    SplitUint16(v);
  }

  lemma BigEndian32(v: uint32)
    ensures PutUint32(v) == [v / 0x100_0000, v / 0x1_0000 % 0x100, v / 0x100 % 0x100, v % 0x100]
  {
    hide Uint32;
    SplitUint32(v);
    Uint32Unique(v);
  }

  lemma Uint16Injective(high: byte, low: byte)
    ensures PutUint16(Uint16(high, low)) == [high, low]
  {
  }

  /** Four bytes are the big-endian form of exactly one number. */
  lemma Uint32Injective(s: seq<byte>)
    requires |s| == 4
    ensures PutUint32(Uint32(s)) == s
  {
    hide Uint32;
    Uint32Unique(Uint32(s));
    var t := PutUint32(Uint32(s));
    assert s == [s[0], s[1], s[2], s[3]] && t == [t[0], t[1], t[2], t[3]];
  }

  /** `data` with the two bytes at `k` replaced by the big-endian form of `v`. */
  function Patch(data: seq<byte>, k: nat, v: uint16): (r: seq<byte>)
    requires k + 2 <= |data|
    ensures |r| == |data|
  {
    data[..k] + PutUint16(v) + data[k + 2..]
  }

  /** The built-in copy, with room for all of `source`. */
  method CopyInto(a: array<byte>, k: nat, source: seq<byte>)
    requires k + |source| <= a.Length
    modifies a
    ensures forall i | k <= i < k + |source| :: a[i] == source[i - k]
    ensures forall i | 0 <= i < k || k + |source| <= i < a.Length :: a[i] == old(a[i])
  {
    forall i | 0 <= i < |source| {
      a[k + i] := source[i];
    }
  }
}
