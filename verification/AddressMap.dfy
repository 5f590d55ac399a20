/** The striping macros: where an array sector lives, and exactly when the map fits its disks. */
module AddressMap {
  import opened Bytes

  // ----- machine shifts and masks

  function Shr(x: nat, bits: nat): nat {
    if bits == 0 then x else Shr(x / 2, bits - 1)
  }

  function And(a: nat, b: nat): nat {
    if a == 0 || b == 0 then 0 else (if a % 2 == 1 && b % 2 == 1 then 1 else 0) + 2 * And(a / 2, b / 2)
  }

  lemma {:induction false} MaskAndShift(x: nat)
    ensures And(x, 7) == x % 8 && Shr(x, 3) == x / 8 && Shl(x, 3) == 8 * x
  {
    assert And(x, 7) == x % 2 + 2 * And(x / 2, 3);
    assert And(x / 2, 3) == x / 2 % 2 + 2 * And(x / 4, 1);
    assert And(x / 4, 1) == x / 4 % 2 + 2 * And(x / 8, 0);
    assert Shr(x, 3) == Shr(x / 2, 2) == Shr(x / 4, 1) == Shr(x / 8, 0);
    assert Shl(x, 3) == 2 * Shl(x, 2) == 4 * Shl(x, 1) == 8 * Shl(x, 0);
  }

  // ----- the macros of block.h

  function ChunkNum(sector: nat): nat { Shr(sector, 3) }

  function ChunkStaSector(sector: nat): nat { Shl(ChunkNum(sector), 3) }

  function ChunkEndSector(sector: nat): nat { ChunkStaSector(sector) + 7 }

  function DeviceNum(chunk: nat, n: nat): nat
    requires n > 0
  { chunk % n }

  function SectorWholeToI(sector: nat, n: nat): nat
    requires n > 0
  { And(sector, 7) + Shl(ChunkNum(sector) / n, 3) }

  /** The disk an array sector lives on. */
  function DiskOf(sector: nat, n: nat): nat
    requires n > 0
  { DeviceNum(ChunkNum(sector), n) }

  /** The array sector that lives at the given place: what the macros must invert. */
  function SectorAt(disk: nat, local: nat, n: nat): nat {
    (local / 8 * n + disk) * 8 + local % 8
  }

  // ----- arithmetic

  lemma DivModUnique(x: nat, n: nat, q: nat, r: nat)
    requires n > 0 && r < n && x == q * n + r
    ensures x / n == q && x % n == r
  {
    var q', r' := x / n, x % n;
    assert x == n * q' + r';
    if q' < q {
      MulStep(n, q', q);
    } else if q < q' {
      MulStep(n, q, q');
    }
  }

  lemma {:induction false} MulStep(n: nat, a: nat, b: nat)
    ensures a < b ==> n * a + n <= n * b
    ensures a <= b ==> n * a <= n * b
  {
    if a < b {
      MulStep(n, a, b - 1);
      assert n * b == n * (b - 1) + n;
    }
  }

  lemma ChunkArithmetic(sector: nat)
    ensures ChunkNum(sector) == sector / 8
    ensures ChunkStaSector(sector) == sector / 8 * 8 && ChunkEndSector(sector) == sector / 8 * 8 + 7
  {
    MaskAndShift(sector);
    MaskAndShift(sector / 8);
  }

  /** The shift-and-mask form is the div-and-mod form. */
  lemma MapArithmetic(sector: nat, n: nat)
    requires n > 0
    ensures DiskOf(sector, n) == sector / 8 % n
    ensures SectorWholeToI(sector, n) == sector % 8 + 8 * (sector / 8 / n)
    ensures SectorWholeToI(sector, n) / 8 == sector / 8 / n && SectorWholeToI(sector, n) % 8 == sector % 8
    ensures ChunkNum(sector) == sector / 8
    ensures ChunkStaSector(sector) == sector / 8 * 8 && ChunkEndSector(sector) == sector / 8 * 8 + 7
  {
    ChunkArithmetic(sector);
    MaskAndShift(sector);
    var row := sector / 8 / n;
    MaskAndShift(row);
    hide And, Shr, Shl, ChunkNum, ChunkStaSector, ChunkEndSector;
    EightParts(sector % 8, row);
  }

  lemma EightParts(low: nat, high: nat)
    requires low < 8
    ensures (low + 8 * high) / 8 == high && (low + 8 * high) % 8 == low
  {}

  /** The map has SectorAt as its inverse, on both sides. */
  lemma MapInverse(sector: nat, n: nat)
    requires n > 0
    ensures DiskOf(sector, n) < n && SectorAt(DiskOf(sector, n), SectorWholeToI(sector, n), n) == sector
  {
    MapArithmetic(sector, n);
    hide DiskOf, SectorWholeToI;
    var chunk := sector / 8;
    assert chunk == chunk / n * n + chunk % n;
  }

  lemma InverseMap(disk: nat, local: nat, n: nat)
    requires disk < n
    ensures DiskOf(SectorAt(disk, local, n), n) == disk && SectorWholeToI(SectorAt(disk, local, n), n) == local
  {
    var chunk := local / 8 * n + disk;
    var sector := SectorAt(disk, local, n);
    MapArithmetic(sector, n);
    assert sector / 8 == chunk && sector % 8 == local % 8;
    DivModUnique(chunk, n, local / 8, disk);
  }

  // ----- capacity

  /** Sectors of one member disk, and of the whole array, from the per-disk byte size. */
  function DiskSectors(perSize: nat): nat { perSize / 512 }

  function ArraySectors(perSize: nat, n: nat): nat { perSize * n / 512 }

  /** Every array sector falls on its member disk. */
  ghost predicate MapFits(perSize: nat, n: nat)
    requires n > 0
  {
    forall s :: 0 <= s < ArraySectors(perSize, n) ==> SectorWholeToI(s, n) < DiskSectors(perSize)
  }

  lemma SplitSize(perSize: nat, n: nat)
    ensures var k, r := perSize / 4096, perSize % 4096;
      && DiskSectors(perSize) == 8 * k + r / 512
      && ArraySectors(perSize, n) == 8 * (k * n) + r * n / 512
  {
    var k, r := perSize / 4096, perSize % 4096;
    assert perSize == 4096 * k + r;
    assert perSize * n == 4096 * (k * n) + r * n by { Distribute(k, r, n); }
  }

  lemma Distribute(k: nat, r: nat, n: nat)
    ensures (4096 * k + r) * n == 4096 * (k * n) + r * n
  {}

  lemma BelowStripes(chunk: nat, k: nat, n: nat)
    requires n > 0 && chunk < k * n
    ensures chunk / n < k
  {}

  lemma StripesBelow(chunk: nat, k: nat, n: nat)
    requires n > 0 && chunk / n < k
    ensures chunk < k * n
  {
    MulStep(n, chunk / n, k);
    assert chunk < n * (chunk / n) + n;
  }

  /** The map fits exactly when there is a single disk, or the disk sizes' odd bytes add up to less than
      one sector. Whole numbers of chunks always do. */
  lemma MapFitsExactly(perSize: nat, n: nat)
    requires n > 0
    ensures MapFits(perSize, n) <==> n == 1 || perSize % 4096 * n < 512
  {
    var k, r := perSize / 4096, perSize % 4096;
    SplitSize(perSize, n);
    if n == 1 {
      forall s | 0 <= s < ArraySectors(perSize, n) ensures SectorWholeToI(s, n) < DiskSectors(perSize) {
        MapArithmetic(s, 1);
      }
    } else if r * n < 512 {
      forall s | 0 <= s < ArraySectors(perSize, n) ensures SectorWholeToI(s, n) < DiskSectors(perSize) {
        MapArithmetic(s, n);
        BelowStripes(s / 8, k, n);
      }
    } else {
      OddSectorOutside(perSize, n);
    }
  }

  lemma OddSectorOutside(perSize: nat, n: nat)
    requires n > 1 && perSize % 4096 * n >= 512
    ensures !MapFits(perSize, n)
  {
    var k, r := perSize / 4096, perSize % 4096;
    SplitSize(perSize, n);
    var p, chunk := r / 512, k * n;
    OddPart(r, n);
    var s := 8 * chunk + p;
    assert s < ArraySectors(perSize, n);
    DivModUnique(chunk, n, k, 0);
    MapArithmetic(s, n);
    assert s / 8 == chunk && s % 8 == p;
    assert SectorWholeToI(s, n) == DiskSectors(perSize);
  }

  lemma OddPart(r: nat, n: nat)
    requires n > 1 && r * n >= 512
    ensures r / 512 < r * n / 512
  {
    MulStep(r, 2, n);
    assert r * 2 <= r * n;
  }

  /** With whole chunks the map is one-to-one from the array onto the member disks: every place holds
      exactly one array sector, so each parity sector covers one sector of every disk. */
  lemma MapBijection(perSize: nat, n: nat, disk: nat, local: nat) returns (s: nat)
    requires n > 0 && perSize % 4096 == 0 && disk < n && local < DiskSectors(perSize)
    ensures s < ArraySectors(perSize, n) && DiskOf(s, n) == disk && SectorWholeToI(s, n) == local
    ensures forall t: nat :: DiskOf(t, n) == disk && SectorWholeToI(t, n) == local ==> t == s
    ensures MapFits(perSize, n)
  {
    s := SectorAt(disk, local, n);
    InverseMap(disk, local, n);
    forall t: nat | DiskOf(t, n) == disk && SectorWholeToI(t, n) == local ensures t == s {
      MapInverse(t, n);
    }
    MapFitsExactly(perSize, n);
    SplitSize(perSize, n);
    MapArithmetic(s, n);
    StripesBelow(s / 8, perSize / 4096, n);
  }
}
