/** Fixed-width little-endian integers: the `to_le_bytes` appends of the ZIP
    writer and the positional reads of a ZIP reader. Writing truncates to the
    width of the field, as the `as u16` and `as u32` casts of the source do. */
module LittleEndian {

  type Byte = b: int | 0 <= b < 256

  function Le16(n: nat): (b: seq<Byte>)
    ensures |b| == 2
  {
    [n % 256, n / 256 % 256]
  }

  function Le32(n: nat): (b: seq<Byte>)
    ensures |b| == 4
  {
    [n % 256, n / 256 % 256, n / 0x1_0000 % 256, n / 0x100_0000 % 256]
  }

  function Le64(n: nat): (b: seq<Byte>)
    ensures |b| == 8
  {
    Le32(n % 0x1_0000_0000) + Le32(n / 0x1_0000_0000)
  }

  function At16(s: seq<Byte>, p: nat): (n: nat)
    requires p + 2 <= |s|
    ensures n < 0x1_0000
  {
    s[p] as int + 256 * (s[p + 1] as int)
  }

  function At32(s: seq<Byte>, p: nat): (n: nat)
    requires p + 4 <= |s|
    ensures n < 0x1_0000_0000
  {
    s[p] as int + 256 * (s[p + 1] as int) + 0x1_0000 * (s[p + 2] as int) + 0x100_0000 * (s[p + 3] as int)
  }

  function At64(s: seq<Byte>, p: nat): nat
    requires p + 8 <= |s|
  {
    At32(s, p) + 0x1_0000_0000 * At32(s, p + 4)
  }

  /** The least significant byte comes first: a local header starts with the letters PK. */
  lemma ByteOrder()
    ensures Le16(0x4b50) == [0x50, 0x4b] && Le32(0x0403_4b50) == [0x50, 0x4b, 3, 4]
    ensures Le64(1) == [1, 0, 0, 0, 0, 0, 0, 0]
  {
  }

  /** `s` carries the record `r` at position `p`. */
  predicate Holds(s: seq<Byte>, p: nat, r: seq<Byte>) {
    p + |r| <= |s| && s[p..p + |r|] == r
  }

  /** A record made of two parts is held exactly when both parts are, back to back. */
  lemma HoldsSplit(s: seq<Byte>, p: nat, a: seq<Byte>, b: seq<Byte>)
    ensures Holds(s, p, a + b) <==> Holds(s, p, a) && Holds(s, p + |a|, b)
  {
    if Holds(s, p, a + b) {
      var r := s[p..p + |a + b|];
      assert s[p..p + |a|] == r[..|a|] == a;
      assert s[p + |a|..p + |a| + |b|] == r[|a|..] == b;
    }
    if Holds(s, p, a) && Holds(s, p + |a|, b) {
      assert s[p..p + |a + b|] == s[p..p + |a|] + s[p + |a|..p + |a| + |b|];
    }
  }

  lemma HoldsInConcat(a: seq<Byte>, r: seq<Byte>, b: seq<Byte>)
    ensures Holds(a + r + b, |a|, r)
  {
  }

  lemma Remainder16(n: nat, d: nat, sum: nat)
    requires n == 0x1_0000 * d + sum && sum < 0x1_0000
    ensures n % 0x1_0000 == sum
  {
  }

  lemma Read16(n: nat)
    ensures At16(Le16(n), 0) == n % 0x1_0000
  {
    var a := n / 256;
    Remainder16(n, a / 256, n % 256 + 256 * (a % 256));
  }

  lemma NestedDivision(n: nat)
    ensures n / 0x1_0000 == n / 256 / 256 && n / 0x100_0000 == n / 256 / 256 / 256
  {
  }

  lemma Remainder(n: nat, d: nat, sum: nat)
    requires n == 0x1_0000_0000 * d + sum && sum < 0x1_0000_0000
    ensures n % 0x1_0000_0000 == sum
  {
  }

  lemma FourDigits(n: nat)
    ensures n % 256 + 256 * (n / 256 % 256) + 0x1_0000 * (n / 0x1_0000 % 256) + 0x100_0000 * (n / 0x100_0000 % 256)
            == n % 0x1_0000_0000
  {
    var a := n / 256;
    var b := a / 256;
    var c := b / 256;
    NestedDivision(n);
    Remainder(n, c / 256, n % 256 + 256 * (a % 256) + 0x1_0000 * (b % 256) + 0x100_0000 * (c % 256));
  }

  lemma Read32(n: nat)
    ensures At32(Le32(n), 0) == n % 0x1_0000_0000
  {
    FourDigits(n);
  }

  /** Reading a 16-bit field of a held record. */
  lemma Field16(s: seq<Byte>, p: nat, n: nat)
    requires Holds(s, p, Le16(n))
    ensures At16(s, p) == n % 0x1_0000
  {
    Read16(n);
    var r := s[p..p + 2];
    assert r[0] == s[p] && r[1] == s[p + 1];
  }

  /** Reading a 32-bit field of a held record. */
  lemma Field32(s: seq<Byte>, p: nat, n: nat)
    requires Holds(s, p, Le32(n))
    ensures At32(s, p) == n % 0x1_0000_0000
  {
    Read32(n);
    var r := s[p..p + 4];
    assert r[0] == s[p] && r[1] == s[p + 1] && r[2] == s[p + 2] && r[3] == s[p + 3];
  }

  lemma TwoHalves(s: seq<Byte>, p: nat, lo: nat, hi: nat)
    requires Holds(s, p, Le32(lo) + Le32(hi))
    requires lo < 0x1_0000_0000 && hi < 0x1_0000_0000
    ensures At64(s, p) == lo + 0x1_0000_0000 * hi
  {
    hide Le32, At32, Holds;
    HoldsSplit(s, p, Le32(lo), Le32(hi));
    Field32(s, p, lo);
    Field32(s, p + 4, hi);
  }

  /** Reading a 64-bit field of a held record. */
  lemma Field64(s: seq<Byte>, p: nat, n: nat)
    requires Holds(s, p, Le64(n)) && n < 0x1_0000_0000_0000_0000
    ensures At64(s, p) == n
  {
    TwoHalves(s, p, n % 0x1_0000_0000, n / 0x1_0000_0000);
  }
}
