/** Cutting a file into chunk descriptors. */
module Chunker {
  import opened Doubles

  datatype Descriptor = Descriptor(chunkID: string, fileID: string, chunkIndex: nat, offset: nat, size: int)

  // ----- Chunk ids -----

  const DIGITS := "0123456789"

  /** Decimal notation. */
  function Dec(n: nat): (s: string)
    ensures |s| >= 1
  {
    if n < 10 then [DIGITS[n]] else Dec(n / 10) + [DIGITS[n % 10]]
  }

  /** The number a string of digits denotes. */
  function Number(s: string): nat {
    if |s| == 0 then 0 else 10 * Number(s[..|s| - 1]) + Digit(s[|s| - 1])
  }

  function Digit(c: char): nat {
    if '0' <= c <= '9' then (c - '0') as int else 0
  }

  lemma DigitOf(d: nat)
    requires d < 10
    ensures Digit(DIGITS[d]) == d
  {
    assert DIGITS == ['0', '1', '2', '3', '4', '5', '6', '7', '8', '9'];
  }

  /** Decimal notation reads back, and has no leading zero. */
  lemma {:induction false} DecReads(n: nat)
    ensures Number(Dec(n)) == n && (n > 0 ==> Dec(n)[0] != '0')
  {
    DigitOf(n % 10);
    if n < 10 {
      assert Dec(n)[..0] == [];
    } else {
      DecReads(n / 10);
      assert Dec(n)[..|Dec(n)| - 1] == Dec(n / 10);
    }
  }

  lemma DecLast(n: nat)
    ensures var s := Dec(n);
            s[|s| - 1] == DIGITS[n % 10] && (|s| == 1 <==> n < 10) && (n >= 10 ==> s[..|s| - 1] == Dec(n / 10))
  {}

  lemma {:induction false} DecInjective(a: nat, b: nat)
    requires Dec(a) == Dec(b)
    ensures a == b
    decreases a
  {
    DecLast(a);
    DecLast(b);
    SameDigit(a % 10, b % 10);
    if a >= 10 { DecInjective(a / 10, b / 10); }
  }

  lemma SameDigit(x: nat, y: nat)
    requires x < 10 && y < 10 && DIGITS[x] == DIGITS[y]
    ensures x == y
  {
    assert DIGITS == ['0', '1', '2', '3', '4', '5', '6', '7', '8', '9'];
  }

  /** The id of a chunk: the hex digest of the file id followed by the index. */
  function ChunkID(digest: string -> string, fileID: string, index: nat): string {
    digest(fileID + Dec(index))
  }

  ghost predicate Injective(digest: string -> string) {
    forall x, y :: digest(x) == digest(y) ==> x == y
  }

  /** With a collision-free digest the chunks of one file have different ids. */
  lemma ChunkIDsDistinct(digest: string -> string, fileID: string, i: nat, j: nat)
    requires Injective(digest) && ChunkID(digest, fileID, i) == ChunkID(digest, fileID, j)
    ensures i == j
  {
    assert fileID + Dec(i) == fileID + Dec(j);
    assert Dec(i) == (fileID + Dec(i))[|fileID|..] && Dec(j) == (fileID + Dec(j))[|fileID|..];
    DecInjective(i, j);
  }

  // ----- Descriptors -----

  function Least(a: int, b: int): int {
    if a < b then a else b
  }

  /** Where chunk `i` starts, as a sum. */
  function Offset(i: nat, size: nat): nat {
    if i == 0 then 0 else Offset(i - 1, size) + size
  }

  lemma {:induction false} OffsetIsProduct(i: nat, size: nat)
    ensures Offset(i, size) == i * size
  {
    if i > 0 {
      OffsetIsProduct(i - 1, size);
      assert (i - 1) * size + size == i * size;
    }
  }

  lemma {:induction false} OffsetSteps(i: nat, k: nat, size: nat)
    requires i < k
    ensures Offset(i, size) + size <= Offset(k, size)
    decreases k
  {
    if i < k - 1 { OffsetSteps(i, k - 1, size); }
  }

  function DescriptorAt(digest: string -> string, fileID: string, totalSize: nat, chunkSize: nat, i: nat): Descriptor {
    var start := Offset(i, chunkSize);
    Descriptor(ChunkID(digest, fileID, i), fileID, i, start, Least(chunkSize, totalSize - start))
  }

  lemma DescriptorFields(digest: string -> string, fileID: string, totalSize: nat, chunkSize: nat, i: nat)
    ensures var d := DescriptorAt(digest, fileID, totalSize, chunkSize, i);
            && d.chunkID == digest(fileID + Dec(i)) && d.fileID == fileID && d.chunkIndex == i
            && d.offset == i * chunkSize && d.offset + d.size == Least(totalSize, (i + 1) * chunkSize)
  {
    OffsetIsProduct(i, chunkSize);
    assert (i + 1) * chunkSize == i * chunkSize + chunkSize;
  }

  /** Offsets before the end, for every index below the number of chunks. */
  lemma OffsetInside(total: nat, size: nat, i: nat)
    requires size >= 1 && i < CeilDiv(total, size)
    ensures Offset(i, size) < total
  {
    CeilDivBounds(total, size);
    TimesLessEq(i, CeilDiv(total, size) - 1, size);
    OffsetIsProduct(i, size);
  }

  /** A floating-point quotient of two sizes: `x` and `y` are the sizes as converted, `q` the rounded quotient. */
  ghost predicate IsQuotient(q: real, x: real, y: real, a: nat, b: nat) {
    IsNearest(x, a as real) && IsNearest(y, b as real) && y > 0.0 && IsNearest(q, x / y)
  }

  lemma QuotientCeiling(q: real, x: real, y: real, a: nat, b: nat)
    requires 1 <= b < PRECISION && a < PRECISION && IsQuotient(q, x, y, a, b)
    ensures Ceil(q) == CeilDiv(a, b)
  {
    SmallSizeExact(x, a);
    SmallSizeExact(y, b);
    CeilingExact(a, b, q);
  }

  /** The descriptor list a file should have: one descriptor for each chunk, in order. */
  ghost predicate Tiles(ds: seq<Descriptor>, digest: string -> string, fileID: string, totalSize: nat, chunkSize: nat)
    requires chunkSize >= 1
  {
    && |ds| == CeilDiv(totalSize, chunkSize)
    && forall i :: 0 <= i < |ds| ==>
         Offset(i, chunkSize) < totalSize && ds[i] == DescriptorAt(digest, fileID, totalSize, chunkSize, i)
  }

  /** The counting loop; `quotient` is the floating-point quotient of the two sizes. It counts up to the ceiling of
      that quotient, which below 2^53 is the number of chunks needed; for chunk sizes that are powers of two it is
      the number the size as converted needs. */
  method GenerateDescriptors(totalSize: nat, chunkSize: nat, fileID: string, digest: string -> string,
                             quotient: real, ghost x: real, ghost y: real) returns (ds: seq<Descriptor>)
    requires chunkSize >= 1 && IsQuotient(quotient, x, y, totalSize, chunkSize)
    ensures |ds| == if Ceil(quotient) > 0 then Ceil(quotient) else 0
    ensures forall i :: 0 <= i < |ds| ==> ds[i] == DescriptorAt(digest, fileID, totalSize, chunkSize, i)
    ensures forall i :: 0 <= i < |ds| ==>
              && ds[i].chunkID == digest(fileID + Dec(i)) && ds[i].fileID == fileID && ds[i].chunkIndex == i
              && ds[i].offset == i * chunkSize && ds[i].offset + ds[i].size == Least(totalSize, (i + 1) * chunkSize)
    ensures Tiles(ds, digest, fileID, totalSize, chunkSize) <==> |ds| == CeilDiv(totalSize, chunkSize)
    ensures totalSize < PRECISION && chunkSize < PRECISION ==> Tiles(ds, digest, fileID, totalSize, chunkSize)
    ensures forall k :: 0 <= k <= 52 && chunkSize == Pow2(k) ==>
              (Tiles(ds, digest, fileID, totalSize, chunkSize) <==>
                 x.Floor >= 0 && CeilDiv(x.Floor, chunkSize) == CeilDiv(totalSize, chunkSize))
  {
    ds := DescribeFirst(Ceil(quotient), totalSize, chunkSize, fileID, digest);
    forall i | 0 <= i < |ds| ensures ds[i].offset == i * chunkSize {
      DescriptorFields(digest, fileID, totalSize, chunkSize, i);
    }
    RightCountTiles(ds, digest, fileID, totalSize, chunkSize);
    if totalSize < PRECISION && chunkSize < PRECISION { QuotientCeiling(quotient, x, y, totalSize, chunkSize); }
    forall k | 0 <= k <= 52 && chunkSize == Pow2(k)
      ensures x.Floor >= 0 && Ceil(quotient) == CeilDiv(x.Floor, chunkSize)
    {
      PowerOfTwoCeiling(quotient, x, y, totalSize, k, chunkSize);
    }
  }

  method DescribeFirst(numChunks: int, totalSize: nat, chunkSize: nat, fileID: string,
                       digest: string -> string) returns (ds: seq<Descriptor>)
    ensures |ds| == if numChunks > 0 then numChunks else 0
    ensures forall i :: 0 <= i < |ds| ==> ds[i] == DescriptorAt(digest, fileID, totalSize, chunkSize, i)
  {
    ds := [];
    var i := 0;
    while i < numChunks
      invariant |ds| == i && (i == 0 || i <= numChunks)
      invariant forall k :: 0 <= k < i ==> ds[k] == DescriptorAt(digest, fileID, totalSize, chunkSize, k)
    {
      var d := Describe(totalSize, chunkSize, fileID, digest, i);
      ds := ds + [d];
      i := i + 1;
    }
  }

  lemma RightCountTiles(ds: seq<Descriptor>, digest: string -> string, fileID: string, totalSize: nat, chunkSize: nat)
    requires chunkSize >= 1
    requires forall i :: 0 <= i < |ds| ==> ds[i] == DescriptorAt(digest, fileID, totalSize, chunkSize, i)
    ensures Tiles(ds, digest, fileID, totalSize, chunkSize) <==> |ds| == CeilDiv(totalSize, chunkSize)
  {
    if |ds| == CeilDiv(totalSize, chunkSize) {
      forall i | 0 <= i < |ds| ensures Offset(i, chunkSize) < totalSize {
        OffsetInside(totalSize, chunkSize, i);
      }
    }
  }

  method Describe(totalSize: nat, chunkSize: nat, fileID: string, digest: string -> string,
                  i: nat) returns (d: Descriptor)
    ensures d == DescriptorAt(digest, fileID, totalSize, chunkSize, i)
  {
    OffsetIsProduct(i, chunkSize);
    var offset := i * chunkSize;
    var size: int := chunkSize;
    if offset + chunkSize > totalSize {
      size := totalSize - offset;
    }
    d := Descriptor(ChunkID(digest, fileID, i), fileID, i, offset, size);
  }

  // ----- Tiling -----

  /** Every byte of the file lies in exactly one chunk, and no chunk is empty. */
  lemma TilesExactly(ds: seq<Descriptor>, digest: string -> string, fileID: string, totalSize: nat, chunkSize: nat,
                     p: nat, i: nat)
    requires chunkSize >= 1 && Tiles(ds, digest, fileID, totalSize, chunkSize) && p < totalSize && i < |ds|
    ensures 0 < ds[i].size <= chunkSize && ds[i].offset + ds[i].size <= totalSize
    ensures ds[i].offset <= p < ds[i].offset + ds[i].size <==> i == p / chunkSize
    ensures p / chunkSize < |ds|
  {
    var k := p / chunkSize;
    BlockOf(totalSize, chunkSize, p, k);
    assert ds[i] == DescriptorAt(digest, fileID, totalSize, chunkSize, i);
    if i < k { OffsetSteps(i, k, chunkSize); }
    if k < i { OffsetSteps(k, i, chunkSize); }
  }

  lemma BlockOf(total: nat, size: nat, p: nat, k: nat)
    requires size >= 1 && p < total && k == p / size
    ensures Offset(k, size) <= p < Offset(k, size) + size && k < CeilDiv(total, size)
  {
    DivisionBounds(p, size);
    OffsetIsProduct(k, size);
    CeilDivBounds(total, size);
    LessIfTimesLess(k, CeilDiv(total, size), size);
  }

  lemma DivisionBounds(p: nat, size: nat)
    requires size >= 1
    ensures (p / size) * size <= p < (p / size) * size + size
  {}
}
