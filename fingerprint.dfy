/** The fingerprint engine of the moderation backend: the difference hash
    (dHash) of a 9x8 grayscale grid, the hex-digit Hamming distance between
    two such hashes and the fingerprint record with its bucket prefix.
    Resizing and grayscale conversion of the image and its SHA-256 digest
    happen in libraries outside this model: the grid and the digest are inputs. */
module Fingerprints {

  newtype byte = x: int | 0 <= x < 256

  /** Side of the grid: 9 columns, 8 rows. */
  const GridWidth: nat := 9
  const GridHeight: nat := 8
  const GridSize: nat := 72
  const DhashLength: nat := 16
  const DhashPrefixLength: nat := 4

  /** `hexBitCounts`: the number of one-bits of each 4-bit value. */
  const HexBitCounts: seq<nat> := [0, 1, 1, 2, 1, 2, 2, 3, 1, 2, 2, 3, 2, 3, 3, 4]

  const HexDigits: string := "0123456789abcdef"

  /** Gradient bit at row `y`, column `x`: the pixel is brighter than its
      right-hand neighbour. */
  predicate GradientBit(grid: seq<byte>, y: nat, x: nat)
    requires |grid| == GridSize && y < GridHeight && x < 8
  {
    grid[y * 9 + x] > grid[y * 9 + x + 1]
  }

  /** The `k`-th bit of the hash in row-major order. */
  predicate HashBit(grid: seq<byte>, k: nat)
    requires |grid| == GridSize && k < 64
  {
    GradientBit(grid, k / 8, k % 8)
  }

  function BitValue(b: bool): nat
  {
    if b then 1 else 0
  }

  /** The value of the `i`-th group of four hash bits, most significant first. */
  function Nibble(grid: seq<byte>, i: nat): (n: nat)
    requires |grid| == GridSize && i < DhashLength
    ensures n < 16
  {
    8 * BitValue(HashBit(grid, 4 * i)) + 4 * BitValue(HashBit(grid, 4 * i + 1)) +
    2 * BitValue(HashBit(grid, 4 * i + 2)) + BitValue(HashBit(grid, 4 * i + 3))
  }

  /** `n.toString(16)` for a value below 16. */
  function HexDigit(n: nat): char
    requires n < 16
  {
    HexDigits[n]
  }

  /** `Number.parseInt(c, 16)` of one character, as the bitwise XOR in
      `hammingDistance` sees it: a character that is no hex digit parses to
      NaN and XOR converts NaN to 0. */
  function HexValue(c: char): (v: nat)
    ensures v < 16
  {
    if '0' <= c <= '9' then c as int - '0' as int
    else if 'a' <= c <= 'f' then c as int - 'a' as int + 10
    else if 'A' <= c <= 'F' then c as int - 'A' as int + 10
    else 0
  }

  lemma HexValueOfDigit(n: nat)
    requires n < 16
    ensures HexValue(HexDigit(n)) == n
  {
  }

  /** `Number.parseInt(chunk, 2)` of a string of '0' and '1' characters. */
  function ParseBinary(chunk: string): nat
  {
    if |chunk| == 0 then 0
    else 2 * ParseBinary(chunk[..|chunk| - 1]) + (if chunk[|chunk| - 1] == '1' then 1 else 0)
  }

  /** The hash the source computes, as a value: 16 lower-case hex digits,
      digit `i` encoding hash bits 4i .. 4i+3. */
  function Dhash(grid: seq<byte>): (h: string)
    requires |grid| == GridSize
    ensures |h| == DhashLength
  {
    seq(DhashLength, i requires 0 <= i < DhashLength => HexDigit(Nibble(grid, i)))
  }

  function BitChar(b: bool): char
  {
    if b then '1' else '0'
  }

  function DigitValue(c: char): nat
  {
    if c == '1' then 1 else 0
  }

  lemma ParseBinaryStep(chunk: string)
    requires |chunk| > 0
    ensures ParseBinary(chunk) == 2 * ParseBinary(chunk[..|chunk| - 1]) + DigitValue(chunk[|chunk| - 1])
  {
  }

  lemma ParseFourBits(chunk: string)
    requires |chunk| == 4
    ensures ParseBinary(chunk) ==
      8 * DigitValue(chunk[0]) + 4 * DigitValue(chunk[1]) + 2 * DigitValue(chunk[2]) + DigitValue(chunk[3])
  {
    var c1, c2, c3 := chunk[..1], chunk[..2], chunk[..3];
    assert c1[..0] == [] && c2[..1] == c1 && c3[..2] == c2 && chunk[..3] == c3;
    ParseBinaryStep(c1);
    ParseBinaryStep(c2);
    ParseBinaryStep(c3);
    ParseBinaryStep(chunk);
  }

  /** Position `8y + x` of the bit list is row `y`, column `x`. */
  lemma RowColumn(y: nat, x: nat)
    requires x < 8
    ensures (8 * y + x) / 8 == y && (8 * y + x) % 8 == x
  {
  }

  /** The first loop of `computeDhash`: compares every pixel with its
      right-hand neighbour into a list of '0'/'1' characters. */
  method GradientBits(grid: seq<byte>) returns (bits: string)
    requires |grid| == GridSize
    ensures |bits| == 64
    ensures forall k :: 0 <= k < 64 ==> bits[k] == BitChar(HashBit(grid, k))
  {
    bits := [];
    for y := 0 to 8
      invariant |bits| == 8 * y
      invariant forall k :: 0 <= k < |bits| ==> bits[k] == BitChar(HashBit(grid, k))
    {
      for x := 0 to 8
        invariant |bits| == 8 * y + x
        invariant forall k :: 0 <= k < |bits| ==> bits[k] == BitChar(HashBit(grid, k))
      {
        var left := grid[y * 9 + x];
        var right := grid[y * 9 + x + 1];
        RowColumn(y, x);
        bits := bits + [if left > right then '1' else '0'];
      }
    }
  }

  /** A chunk of four bit characters starting at bit `4i` parses to nibble `i`. */
  lemma ChunkIsNibble(grid: seq<byte>, bits: string, i: nat)
    requires |grid| == GridSize && |bits| == 64 && i < DhashLength
    requires forall k :: 0 <= k < 64 ==> bits[k] == BitChar(HashBit(grid, k))
    ensures ParseBinary(bits[4 * i..4 * i + 4]) == Nibble(grid, i)
  {
    var chunk := bits[4 * i..4 * i + 4];
    ParseFourBits(chunk);
    assert chunk[0] == bits[4 * i] && chunk[1] == bits[4 * i + 1];
    assert chunk[2] == bits[4 * i + 2] && chunk[3] == bits[4 * i + 3];
  }

  /** The second loop of `computeDhash`: each group of four bit characters
      becomes one hex digit. */
  method HexOfBits(grid: seq<byte>, bits: string) returns (hex: string)
    requires |grid| == GridSize && |bits| == 64
    requires forall k :: 0 <= k < 64 ==> bits[k] == BitChar(HashBit(grid, k))
    ensures hex == Dhash(grid)
  {
    hex := [];
    var i := 0;
    while i < |bits|
      invariant 0 <= i <= 64 && i == 4 * |hex|
      invariant forall j :: 0 <= j < |hex| ==> hex[j] == HexDigit(Nibble(grid, j))
    {
      var chunk := bits[i..i + 4];
      ChunkIsNibble(grid, bits, |hex|);
      hex := hex + [HexDigit(ParseBinary(chunk))];
      i := i + 4;
    }
  }

  /** `computeDhash` after resizing. */
  method ComputeDhash(grid: seq<byte>) returns (hash: string)
    requires |grid| == GridSize
    ensures hash == Dhash(grid)
  {
    var bits := GradientBits(grid);
    hash := HexOfBits(grid, bits);
  }

  /** Bit `j` (0 = least significant) of a 4-bit value. */
  function BitOf(n: nat, j: nat): nat
    requires j < 4
  {
    if j == 0 then n % 2 else if j == 1 then n / 2 % 2 else if j == 2 then n / 4 % 2 else n / 8 % 2
  }

  /** Bit `k` of a hex-encoded hash: read digit k/4 back and take its bit, most
      significant first. */
  function DecodedBit(h: string, k: nat): bool
    requires k < 4 * |h|
  {
    BitOf(HexValue(h[k / 4]), 3 - k % 4) == 1
  }

  /** Decoding bit `k` of the hash gives hash bit `k` of the grid. */
  lemma DecodedHashBit(grid: seq<byte>, k: nat)
    requires |grid| == GridSize && k < 64
    ensures DecodedBit(Dhash(grid), k) <==> HashBit(grid, k)
  {
    var i, j := k / 4, k % 4;
    assert k == 4 * i + j && i < 16;
    HexValueOfDigit(Nibble(grid, i));
    assert HexValue(Dhash(grid)[i]) == Nibble(grid, i);
    NibbleBits(grid, i);
    if j == 0 {
      assert k == 4 * i;
    } else if j == 1 {
      assert k == 4 * i + 1;
    } else if j == 2 {
      assert k == 4 * i + 2;
    } else {
      assert k == 4 * i + 3;
    }
  }

  /** The hash has 16 lower-case hex digits, and decoding it gives back, at
      row `y` and column `x`, exactly "pixel (y, x) is brighter than pixel
      (y, x + 1)". */
  lemma DhashEncodesGradient(grid: seq<byte>, y: nat, x: nat)
    requires |grid| == GridSize && y < GridHeight && x < 8
    ensures |Dhash(grid)| == 16 && forall i :: 0 <= i < 16 ==> Dhash(grid)[i] in HexDigits
    ensures DecodedBit(Dhash(grid), 8 * y + x) <==> grid[y * 9 + x] > grid[y * 9 + x + 1]
  {
    RowColumn(y, x);
    DecodedHashBit(grid, 8 * y + x);
    DhashIsHex(grid);
  }

  lemma DhashIsHex(grid: seq<byte>)
    requires |grid| == GridSize
    ensures forall i :: 0 <= i < 16 ==> Dhash(grid)[i] in HexDigits
  {
    forall i | 0 <= i < 16 ensures Dhash(grid)[i] in HexDigits {
      assert Dhash(grid)[i] == HexDigits[Nibble(grid, i)];
    }
  }

  lemma FourBits(b0: bool, b1: bool, b2: bool, b3: bool)
    ensures var n := 8 * BitValue(b0) + 4 * BitValue(b1) + 2 * BitValue(b2) + BitValue(b3);
      BitOf(n, 3) == BitValue(b0) && BitOf(n, 2) == BitValue(b1) &&
      BitOf(n, 1) == BitValue(b2) && BitOf(n, 0) == BitValue(b3)
  {
  }

  /** Digit `i` of the hash holds hash bits 4i .. 4i+3, most significant first. */
  lemma NibbleBits(grid: seq<byte>, i: nat)
    requires |grid| == GridSize && i < DhashLength
    ensures BitOf(Nibble(grid, i), 3) == BitValue(HashBit(grid, 4 * i))
    ensures BitOf(Nibble(grid, i), 2) == BitValue(HashBit(grid, 4 * i + 1))
    ensures BitOf(Nibble(grid, i), 1) == BitValue(HashBit(grid, 4 * i + 2))
    ensures BitOf(Nibble(grid, i), 0) == BitValue(HashBit(grid, 4 * i + 3))
  {
    FourBits(HashBit(grid, 4 * i), HashBit(grid, 4 * i + 1), HashBit(grid, 4 * i + 2), HashBit(grid, 4 * i + 3));
  }

  /** `a ^ b` on two values below 16. */
  function Xor4(a: nat, b: nat): (r: nat)
    requires a < 16 && b < 16
    ensures r < 16
  {
    (if BitOf(a, 0) != BitOf(b, 0) then 1 else 0) + (if BitOf(a, 1) != BitOf(b, 1) then 2 else 0) +
    (if BitOf(a, 2) != BitOf(b, 2) then 4 else 0) + (if BitOf(a, 3) != BitOf(b, 3) then 8 else 0)
  }

  /** One step of `hammingDistance`: the table lookup for two hex characters. */
  function DigitDistance(c: char, d: char): nat
  {
    HexBitCounts[Xor4(HexValue(c), HexValue(d))]
  }

  /** The sum the loop of `hammingDistance` accumulates over equally long hashes. */
  function HexHamming(a: string, b: string): nat
    requires |a| == |b|
  {
    if |a| == 0 then 0
    else HexHamming(a[..|a| - 1], b[..|b| - 1]) + DigitDistance(a[|a| - 1], b[|b| - 1])
  }

  /** A distance value: `Number.POSITIVE_INFINITY` or a count of bits. */
  datatype Distance = Finite(bits: nat) | Infinite
  {
    /** `distance <= threshold` in JavaScript. */
    predicate AtMost(threshold: int)
    {
      Finite? && bits <= threshold
    }
  }

  /** `hammingDistance(a, b)`: the digit loop accumulating the popcount of
      each nibble XOR. */
  method HammingDistance(a: string, b: string) returns (d: Distance)
    ensures d == DistanceOf(a, b)
  {
    if |a| == 0 || |b| == 0 || |a| != |b| {
      return Infinite;
    }
    var distance: nat := 0;
    for i := 0 to |a|
      invariant distance == HexHamming(a[..i], b[..i])
    {
      assert a[..i + 1][..i] == a[..i] && b[..i + 1][..i] == b[..i];
      var xor := Xor4(HexValue(a[i]), HexValue(b[i]));
      distance := distance + HexBitCounts[xor];
    }
    assert a[..|a|] == a && b[..|b|] == b;
    d := Finite(distance);
  }

  /** The distance of two hashes: infinite when either is missing (empty) or
      their lengths differ, otherwise the number of differing bits summed
      digit by digit. */
  function DistanceOf(a: string, b: string): Distance
  {
    if |a| == 0 || |b| == 0 || |a| != |b| then Infinite else Finite(HexHamming(a, b))
  }

  lemma DigitDistanceSymmetric(c: char, d: char)
    ensures DigitDistance(c, d) == DigitDistance(d, c)
  {
    assert Xor4(HexValue(c), HexValue(d)) == Xor4(HexValue(d), HexValue(c));
  }

  lemma {:induction false} HexHammingSymmetric(a: string, b: string)
    requires |a| == |b|
    ensures HexHamming(a, b) == HexHamming(b, a)
  {
    if |a| > 0 {
      HexHammingSymmetric(a[..|a| - 1], b[..|b| - 1]);
      DigitDistanceSymmetric(a[|a| - 1], b[|b| - 1]);
    }
  }

  /** `hammingDistance` is symmetric. */
  lemma DistanceSymmetric(a: string, b: string)
    ensures DistanceOf(a, b) == DistanceOf(b, a)
  {
    if |a| == |b| {
      HexHammingSymmetric(a, b);
    }
  }

  lemma {:induction false} HexHammingSelf(a: string)
    ensures HexHamming(a, a) == 0
  {
    if |a| > 0 {
      HexHammingSelf(a[..|a| - 1]);
    }
  }

  /** A non-empty hash is at distance 0 from itself; a missing one is
      infinitely far from everything. */
  lemma DistanceToSelf(a: string)
    ensures DistanceOf(a, a) == if |a| == 0 then Infinite else Finite(0)
  {
    HexHammingSelf(a);
  }

  lemma {:induction false} HexHammingBound(a: string, b: string)
    requires |a| == |b|
    ensures HexHamming(a, b) <= 4 * |a|
  {
    if |a| > 0 {
      HexHammingBound(a[..|a| - 1], b[..|b| - 1]);
    }
  }

  /** At most four bits differ per hex digit. */
  lemma DistanceBound(a: string, b: string)
    requires |a| == |b| > 0
    ensures DistanceOf(a, b).Finite? && DistanceOf(a, b).bits <= 4 * |a|
  {
    HexHammingBound(a, b);
  }

  /** Number of bit positions below `n` where the gradient bits of two grids differ. */
  function DifferingBits(g1: seq<byte>, g2: seq<byte>, n: nat): nat
    requires |g1| == GridSize && |g2| == GridSize && n <= 64
  {
    if n == 0 then 0
    else DifferingBits(g1, g2, n - 1) + (if HashBit(g1, n - 1) != HashBit(g2, n - 1) then 1 else 0)
  }

  lemma TableCountsBits(b0: bool, b1: bool, b2: bool, b3: bool)
    ensures HexBitCounts[BitValue(b0) + 2 * BitValue(b1) + 4 * BitValue(b2) + 8 * BitValue(b3)] ==
            BitValue(b0) + BitValue(b1) + BitValue(b2) + BitValue(b3)
  {
  }

  /** The table lookup on the XOR of two digits counts their differing bits. */
  lemma DigitDistanceCountsBits(a: nat, b: nat)
    requires a < 16 && b < 16
    ensures HexBitCounts[Xor4(a, b)] ==
      BitValue(BitOf(a, 0) != BitOf(b, 0)) + BitValue(BitOf(a, 1) != BitOf(b, 1)) +
      BitValue(BitOf(a, 2) != BitOf(b, 2)) + BitValue(BitOf(a, 3) != BitOf(b, 3))
  {
    TableCountsBits(BitOf(a, 0) != BitOf(b, 0), BitOf(a, 1) != BitOf(b, 1),
                    BitOf(a, 2) != BitOf(b, 2), BitOf(a, 3) != BitOf(b, 3));
  }

  /** The table lookup on two digits whose bits are known counts the
      positions where those bits differ. */
  lemma KnownBitsDistance(a: nat, b: nat, p0: bool, p1: bool, p2: bool, p3: bool,
                          q0: bool, q1: bool, q2: bool, q3: bool)
    requires a < 16 && b < 16
    requires BitOf(a, 3) == BitValue(p0) && BitOf(a, 2) == BitValue(p1)
    requires BitOf(a, 1) == BitValue(p2) && BitOf(a, 0) == BitValue(p3)
    requires BitOf(b, 3) == BitValue(q0) && BitOf(b, 2) == BitValue(q1)
    requires BitOf(b, 1) == BitValue(q2) && BitOf(b, 0) == BitValue(q3)
    ensures HexBitCounts[Xor4(a, b)] ==
      BitValue(p0 != q0) + BitValue(p1 != q1) + BitValue(p2 != q2) + BitValue(p3 != q3)
  {
    DigitDistanceCountsBits(a, b);
  }

  /** Four consecutive positions add the number of their differing bits. */
  lemma DifferingBitsFour(g1: seq<byte>, g2: seq<byte>, k: nat)
    requires |g1| == GridSize && |g2| == GridSize && k + 4 <= 64
    ensures DifferingBits(g1, g2, k + 4) - DifferingBits(g1, g2, k) ==
      BitValue(HashBit(g1, k) != HashBit(g2, k)) + BitValue(HashBit(g1, k + 1) != HashBit(g2, k + 1)) +
      BitValue(HashBit(g1, k + 2) != HashBit(g2, k + 2)) + BitValue(HashBit(g1, k + 3) != HashBit(g2, k + 3))
  {
    assert DifferingBits(g1, g2, k + 4) == DifferingBits(g1, g2, k + 3) + BitValue(HashBit(g1, k + 3) != HashBit(g2, k + 3));
    assert DifferingBits(g1, g2, k + 3) == DifferingBits(g1, g2, k + 2) + BitValue(HashBit(g1, k + 2) != HashBit(g2, k + 2));
    assert DifferingBits(g1, g2, k + 2) == DifferingBits(g1, g2, k + 1) + BitValue(HashBit(g1, k + 1) != HashBit(g2, k + 1));
    assert DifferingBits(g1, g2, k + 1) == DifferingBits(g1, g2, k) + BitValue(HashBit(g1, k) != HashBit(g2, k));
  }

  /** Digit `i` of two hashes contributes the number of differing bits in
      positions 4i .. 4i+3. */
  lemma DhashDigitDistance(g1: seq<byte>, g2: seq<byte>, i: nat)
    requires |g1| == GridSize && |g2| == GridSize && i < DhashLength
    ensures DigitDistance(Dhash(g1)[i], Dhash(g2)[i]) ==
      DifferingBits(g1, g2, 4 * i + 4) - DifferingBits(g1, g2, 4 * i)
  {
    var n1, n2 := Nibble(g1, i), Nibble(g2, i);
    HexValueOfDigit(n1);
    HexValueOfDigit(n2);
    assert DigitDistance(Dhash(g1)[i], Dhash(g2)[i]) == HexBitCounts[Xor4(n1, n2)];
    NibbleBits(g1, i);
    NibbleBits(g2, i);
    var k := 4 * i;
    KnownBitsDistance(n1, n2, HashBit(g1, k), HashBit(g1, k + 1), HashBit(g1, k + 2), HashBit(g1, k + 3),
                      HashBit(g2, k), HashBit(g2, k + 1), HashBit(g2, k + 2), HashBit(g2, k + 3));
    DifferingBitsFour(g1, g2, k);
  }

  lemma HexHammingPrefixStep(a: string, b: string, m: nat)
    requires |a| == |b| && 0 < m <= |a|
    ensures HexHamming(a[..m], b[..m]) == HexHamming(a[..m - 1], b[..m - 1]) + DigitDistance(a[m - 1], b[m - 1])
  {
    assert a[..m][..m - 1] == a[..m - 1] && b[..m][..m - 1] == b[..m - 1];
  }

  /** The distance between the first `m` digits of two hashes is `c[m]` when
      `c` accumulates the digit distances from `c[0] == 0`. */
  lemma {:induction false} HammingPrefixSums(h1: string, h2: string, c: seq<nat>, m: nat)
    requires |h1| == |h2| && |c| == |h1| + 1 && c[0] == 0 && m <= |h1|
    requires forall i :: 0 <= i < |h1| ==> c[i] + DigitDistance(h1[i], h2[i]) == c[i + 1]
    ensures HexHamming(h1[..m], h2[..m]) == c[m]
  {
    if m > 0 {
      HexHammingPrefixStep(h1, h2, m);
      HammingPrefixSums(h1, h2, c, m - 1);
      assert c[m - 1] + DigitDistance(h1[m - 1], h2[m - 1]) == c[m];
    }
  }

  /** The running counts of differing bits at every digit boundary. */
  lemma DigitBoundaryCounts(g1: seq<byte>, g2: seq<byte>) returns (c: seq<nat>)
    requires |g1| == GridSize && |g2| == GridSize
    ensures |c| == 17 && c[0] == 0 && c[16] == DifferingBits(g1, g2, 64)
    ensures forall i :: 0 <= i < 16 ==> c[i] + DigitDistance(Dhash(g1)[i], Dhash(g2)[i]) == c[i + 1]
  {
    c := seq(17, j requires 0 <= j < 17 => DifferingBits(g1, g2, 4 * j));
    forall i | 0 <= i < 16
      ensures c[i] + DigitDistance(Dhash(g1)[i], Dhash(g2)[i]) == c[i + 1]
    {
      DhashDigitDistance(g1, g2, i);
      assert c[i] == DifferingBits(g1, g2, 4 * i);
      assert c[i + 1] == DifferingBits(g1, g2, 4 * i + 4);
    }
  }

  /** `hammingDistance` of two dhashes is the number of the 64 gradient bits
      that differ between the two grids. */
  lemma DhashDistanceIsBitDifference(g1: seq<byte>, g2: seq<byte>)
    requires |g1| == GridSize && |g2| == GridSize
    ensures DistanceOf(Dhash(g1), Dhash(g2)) == Finite(DifferingBits(g1, g2, 64))
  {
    var h1, h2 := Dhash(g1), Dhash(g2);
    var c := DigitBoundaryCounts(g1, g2);
    HammingPrefixSums(h1, h2, c, 16);
    assert h1[..16] == h1 && h2[..16] == h2;
  }

  /** `{sha256, dhash, dhashPrefix}`. */
  datatype Fingerprint = Fingerprint(sha256: string, dhash: string, dhashPrefix: string)

  /** `s.slice(0, n)`. */
  function SlicePrefix(s: string, n: nat): (r: string)
    ensures |r| == if |s| < n then |s| else n
    ensures r == s[..|r|]
  {
    if |s| < n then s else s[..n]
  }

  /** `buildFingerprint` given the image's SHA-256 digest and its resized grid. */
  method BuildFingerprint(sha256: string, grid: seq<byte>) returns (fp: Fingerprint)
    requires |grid| == GridSize
    ensures fp.sha256 == sha256 && fp.dhash == Dhash(grid)
    ensures |fp.dhashPrefix| == DhashPrefixLength && fp.dhashPrefix == fp.dhash[..DhashPrefixLength]
  {
    var dhash := ComputeDhash(grid);
    fp := Fingerprint(sha256, dhash, SlicePrefix(dhash, DhashPrefixLength));
  }
}
