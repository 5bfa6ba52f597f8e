/** Multipart arithmetic (src/storage/limits.ts). */
module Limits {
  import opened Wrappers

  const MIB: nat := 1024 * 1024
  const GIB: nat := 1024 * MIB
  const MIN_PART: nat := 5 * MIB
  const MAX_PART: nat := 5 * GIB
  const MAX_PARTS: nat := 10_000
  const MAX_OBJECT: nat := 5 * 1024 * GIB

  datatype RangeError = TooLarge(size: int)

  /** Math.ceil of a quotient. */
  function CeilDiv(a: int, b: nat): int
    requires b > 0
  {
    (a + b - 1) / b
  }

  function ComputePartSize(size: int): Result<int, RangeError> {
    var needed := CeilDiv(size, MAX_PARTS);
    var rounded := CeilDiv(needed, MIB) * MIB;
    var part := if rounded > MIN_PART then rounded else MIN_PART;
    if part > MAX_PART then Err(TooLarge(size)) else Ok(part)
  }

  function PartCount(size: int, partSize: nat): int
    requires partSize > 0
  {
    CeilDiv(size, partSize)
  }

  function PartLength(size: int, partSize: int, n: int): int {
    var rest := size - (n - 1) * partSize;
    if partSize < rest then partSize else rest
  }

  /** What an upload of `size` bytes may use: whole MiB parts of at least 5 MiB, at most 10 000 of them. */
  predicate Suits(size: int, part: nat) {
    part >= MIN_PART && part % MIB == 0 && PartCount(size, part) <= MAX_PARTS
  }

  lemma CeilDivBounds(a: int, b: nat, q: int)
    requires b > 0
    ensures CeilDiv(a, b) <= q <==> a <= q * b
  {
    var c := CeilDiv(a, b);
    assert a <= c * b < a + b;
    if c <= q {
      assert c * b <= q * b;
    } else {
      assert (q + 1) * b <= c * b;
    }
  }

  /** Rounding up to whole MiB gives the least multiple that is big enough. */
  lemma RoundUp(x: int, m: int)
    ensures x <= CeilDiv(x, MIB) * MIB && (CeilDiv(x, MIB) * MIB) % MIB == 0
    ensures m % MIB == 0 && x <= m ==> CeilDiv(x, MIB) * MIB <= m
  {
  }

  /** For every size the service accepts there is a part size, within the limits of a part, and
      it is the least one that suits. */
  lemma PartSizeIsLeast(size: int)
    requires 1 <= size <= MAX_OBJECT
    ensures ComputePartSize(size).Ok?
    ensures var part := ComputePartSize(size).value;
            0 < part <= MAX_PART && Suits(size, part) && forall m: nat :: Suits(size, m) ==> part <= m
  {
    hide Suits, PartCount;
    var needed := CeilDiv(size, MAX_PARTS);
    assert 1 <= needed <= 549755814;
    var part := ComputePartSize(size).value;
    RoundUp(needed, 525 * MIB);
    SuitsIff(size, part);
    forall m: nat | Suits(size, m) ensures part <= m {
      SuitsIff(size, m);
      RoundUp(needed, m);
    }
  }

  /** The same in bytes. */
  lemma PartSizeInBytes(size: int)
    requires 1 <= size <= 5_497_558_138_880
    ensures ComputePartSize(size).Ok?
    ensures var part := ComputePartSize(size).value;
            && 5_242_880 <= part <= 5_368_709_120 && part % 1_048_576 == 0 && size <= 10_000 * part
            && forall m: nat :: m >= 5_242_880 && m % 1_048_576 == 0 && size <= 10_000 * m ==> part <= m
  {
    hide PartCount, ComputePartSize;
    PartSizeIsLeast(size);
    FewParts(size, ComputePartSize(size).value);
    forall m: nat | m >= 5_242_880 && m % 1_048_576 == 0 && size <= 10_000 * m ensures ComputePartSize(size).value <= m {
      FewParts(size, m);
      assert Suits(size, m);
    }
  }

  lemma FewParts(size: int, part: nat)
    requires part > 0
    ensures PartCount(size, part) <= 10_000 <==> size <= 10_000 * part
  {
    CeilDivBounds(size, part, 10_000);
  }

  lemma SuitsIff(size: int, m: nat)
    ensures Suits(size, m) <==> m >= MIN_PART && m % MIB == 0 && m >= CeilDiv(size, MAX_PARTS)
  {
    if m >= MIN_PART {
      CeilDivBounds(size, m, MAX_PARTS);
      CeilDivBounds(size, MAX_PARTS, m);
    }
  }

  /** The guard throws exactly when even 5 GiB parts are too few. */
  lemma ThrowsIff(size: int)
    requires size >= 1
    ensures ComputePartSize(size).Err? <==> size > 10_000 * 5_368_709_120
  {
    CeilDivBounds(size, MAX_PARTS, MAX_PART);
    var needed := CeilDiv(size, MAX_PARTS);
    CeilDivBounds(needed, MIB, 5 * 1024);
  }

  function TotalLength(size: int, partSize: int, n: nat): int {
    if n == 0 then 0 else TotalLength(size, partSize, n - 1) + PartLength(size, partSize, n)
  }

  lemma {:induction false} PrefixLength(size: int, partSize: nat, n: nat)
    requires partSize > 0 && n * partSize <= size
    ensures TotalLength(size, partSize, n) == n * partSize
  {
    if n > 0 {
      assert (n - 1) * partSize + partSize == n * partSize;
      PrefixLength(size, partSize, n - 1);
    }
  }

  /** The parts cover the object exactly: every length is positive, all but the last are the part
      size, and they add up to `size`. */
  lemma PartsCover(size: int, partSize: nat)
    requires size >= 1 && partSize >= 1
    ensures var total := PartCount(size, partSize);
            && total >= 1
            && (forall n :: 1 <= n < total ==> PartLength(size, partSize, n) == partSize)
            && 1 <= PartLength(size, partSize, total) <= partSize
            && TotalLength(size, partSize, total) == size
  {
    var total := PartCount(size, partSize);
    assert size <= total * partSize < size + partSize;
    assert (total - 1) * partSize == total * partSize - partSize;
    forall n | 1 <= n < total ensures PartLength(size, partSize, n) == partSize {
      assert n * partSize <= (total - 1) * partSize;
      assert (n - 1) * partSize == n * partSize - partSize;
    }
    PrefixLength(size, partSize, total - 1);
  }

  /** Past the last part the formula gives no positive length: zero just when the parts fill the
      object exactly and the number is one too high, negative otherwise. */
  lemma LengthPastEnd(size: int, partSize: nat, n: nat)
    requires size >= 1 && partSize >= 1 && n > PartCount(size, partSize)
    ensures PartLength(size, partSize, n) <= 0
    ensures PartLength(size, partSize, n) == 0 <==> n == PartCount(size, partSize) + 1 && size % partSize == 0
  {
    var total := PartCount(size, partSize);
    assert size <= total * partSize < size + partSize;
    if n == total + 1 {
      assert (n - 1) * partSize == total * partSize;
      if size % partSize == 0 {
        assert size == (size / partSize) * partSize;
        CeilDivBounds(size, partSize, size / partSize);
        assert total * partSize <= (size / partSize) * partSize;
      } else if size == total * partSize {
        MultipleMod(total, partSize);
      }
    } else {
      assert (n - 1) * partSize >= (total + 1) * partSize == total * partSize + partSize;
    }
  }

  lemma MultipleMod(k: nat, b: nat)
    requires b > 0
    ensures (k * b) % b == 0
  {
    MultipleSize(k - (k * b) / b, b);
  }

  lemma MultipleSize(d: int, b: nat)
    ensures d >= 1 ==> d * b >= b
    ensures d <= -1 ==> d * b + b <= 0
  {
    assert d <= -1 ==> (d + 1) * b <= 0;
  }
}
