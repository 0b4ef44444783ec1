/** Bytes, C strings and fixed-width integers as the C sources use them. */
module Bytes {

  type byte = x: int | 0 <= x < 0x100

  /** The characters of a C string: no byte is NUL; the terminator is not part of the value. */
  type CString = s: seq<byte> | 0 !in s

  const INT32_MAX: int := 0x7FFF_FFFF
  type int32 = x: int | -0x8000_0000 <= x <= INT32_MAX

  datatype Option<+T> = None | Some(value: T)

  /** Conversion to a two's complement 32-bit integer, as a C cast does it. */
  function ToInt32(n: int): int32 {
    var u := n % 0x1_0000_0000;
    if u <= INT32_MAX then u else u - 0x1_0000_0000
  }

  /** The sum of two int32_t values, with wrap-around. */
  function AddInt32(a: int32, b: int32): int32 {
    if a + b > INT32_MAX then a + b - 0x1_0000_0000
    else if a + b < -0x8000_0000 then a + b + 0x1_0000_0000
    else a + b
  }

  /** The bit pattern of an unsigned 32-bit integer read as a signed one. */
  function AsSigned(w: int): int32
    requires 0 <= w < 0x1_0000_0000
  {
    if w <= INT32_MAX then w else w - 0x1_0000_0000
  }

  /** The low k bytes of n, most significant first. */
  function BigEndian(n: nat, k: nat): (b: seq<byte>)
    ensures |b| == k
  {
    if k == 0 then [] else BigEndian(n / 0x100, k - 1) + [n % 0x100]
  }

  /** The low 32 bits of n, most significant byte first. */
  function Be32(n: nat): (b: seq<byte>)
    ensures |b| == 4
  {
    BigEndian(n, 4)
  }

  lemma Be32Digits(n: nat)
    ensures Be32(n) == [n / 0x100_0000 % 0x100, n / 0x1_0000 % 0x100, n / 0x100 % 0x100, n % 0x100]
  {
    var q := n / 0x100;
    var r := q / 0x100;
    assert r == n / 0x1_0000 && r / 0x100 == n / 0x100_0000;
    assert BigEndian(r / 0x100, 1) == [r / 0x100 % 0x100];
    assert BigEndian(r, 2) == BigEndian(r / 0x100, 1) + [r % 0x100];
    assert BigEndian(q, 3) == BigEndian(r, 2) + [q % 0x100];
  }

  /** The value of four bytes shifted and or-ed together. */
  function Word(b3: byte, b2: byte, b1: byte, b0: byte): (w: int)
    ensures 0 <= w < 0x1_0000_0000
  {
    var (x3: int, x2: int, x1: int) := (b3, b2, b1);
    x3 * 0x100_0000 + x2 * 0x1_0000 + x1 * 0x100 + b0
  }

  function ReadInt32(b: seq<byte>, pos: nat): int32
    requires pos + 4 <= |b|
  {
    AsSigned(Word(b[pos], b[pos + 1], b[pos + 2], b[pos + 3]))
  }

  lemma WordOfBe32(n: nat)
    requires n < 0x1_0000_0000
    ensures Word(Be32(n)[0], Be32(n)[1], Be32(n)[2], Be32(n)[3]) == n
  {
    Be32Digits(n);
    hide BigEndian;
    var q := n / 0x100;
    var r := q / 0x100;
    assert n == q * 0x100 + n % 0x100;
    assert q == r * 0x100 + q % 0x100 && r == n / 0x1_0000;
    assert r == r / 0x100 * 0x100 + r % 0x100 && r / 0x100 == n / 0x100_0000;
  }

  lemma Digit(q: nat, d: byte)
    ensures (q * 0x100 + d) / 0x100 == q && (q * 0x100 + d) % 0x100 == d
  {
  }

  lemma Be32OfWord(b3: byte, b2: byte, b1: byte, b0: byte)
    ensures Be32(Word(b3, b2, b1, b0)) == [b3, b2, b1, b0]
  {
    var n3: nat := b3;
    var n2 := n3 * 0x100 + b2;
    var n1 := n2 * 0x100 + b1;
    var n := n1 * 0x100 + b0;
    Digit(0, b3);
    Digit(n3, b2);
    Digit(n2, b1);
    Digit(n1, b0);
    assert n == Word(b3, b2, b1, b0);
    assert BigEndian(n3, 1) == BigEndian(0, 0) + [b3];
    assert BigEndian(n2, 2) == BigEndian(n3, 1) + [b2];
    assert BigEndian(n1, 3) == BigEndian(n2, 2) + [b1];
    assert BigEndian(n, 4) == BigEndian(n1, 3) + [b0];
  }

  /** s stands at position pos of b. */
  predicate At(b: seq<byte>, pos: nat, s: seq<byte>) {
    pos + |s| <= |b| && b[pos..pos + |s|] == s
  }

  lemma AtConcat(b: seq<byte>, pos: nat, s: seq<byte>, t: seq<byte>)
    ensures At(b, pos, s + t) <==> At(b, pos, s) && At(b, pos + |s|, t)
  {
    if pos + |s| + |t| <= |b| {
      var w := b[pos..pos + |s| + |t|];
      assert w[..|s|] == b[pos..pos + |s|] && w[|s|..] == b[pos + |s|..pos + |s| + |t|];
      assert w == w[..|s|] + w[|s|..];
      assert (s + t)[..|s|] == s && (s + t)[|s|..] == t;
    }
  }

  /** Reading back four bytes, in both directions. */
  lemma ReadIffAt(b: seq<byte>, pos: nat, n: nat)
    requires pos + 4 <= |b| && n <= INT32_MAX
    ensures ReadInt32(b, pos) == n <==> At(b, pos, Be32(n))
  {
    var w := b[pos..pos + 4];
    assert w == [b[pos], b[pos + 1], b[pos + 2], b[pos + 3]];
    Be32OfWord(w[0], w[1], w[2], w[3]);
    WordOfBe32(n);
    hide Word, Be32;
  }

  /** memchr: the first NUL at or after pos, or -1. */
  function FirstNul(b: seq<byte>, pos: nat): (r: int)
    requires pos <= |b|
    ensures r == -1 ==> forall i :: pos <= i < |b| ==> b[i] != 0
    ensures r != -1 ==> pos <= r < |b| && b[r] == 0 && forall i :: pos <= i < r ==> b[i] != 0
    decreases |b| - pos
  {
    if pos == |b| then -1
    else if b[pos] == 0 then pos
    else FirstNul(b, pos + 1)
  }

  /** A C string and its terminator stand at pos exactly when the first NUL ends that string. */
  lemma StringIffFirstNul(b: seq<byte>, pos: nat, s: CString)
    requires pos <= |b|
    ensures At(b, pos, s + [0]) <==> FirstNul(b, pos) == pos + |s| && b[pos..pos + |s|] == s
  {
    AtConcat(b, pos, s, [0]);
    if At(b, pos, s + [0]) {
      assert b[pos + |s|] == b[pos + |s|..pos + |s| + 1][0];
      forall i | pos <= i < pos + |s| ensures b[i] != 0 {
        assert b[i] == s[i - pos];
      }
    }
  }

  /** memcpy of src to dst + at. */
  method CopyBytes(dst: array<byte>, at: nat, src: seq<byte>)
    requires at + |src| <= dst.Length
    modifies dst
    ensures dst[..at + |src|] == old(dst[..at]) + src
    ensures forall k :: at + |src| <= k < dst.Length ==> dst[k] == old(dst[k])
  {
    forall k | 0 <= k < |src| {
      dst[at + k] := src[k];
    }
  }
}
