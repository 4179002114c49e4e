/** Sizes and addresses in slab.c: size classes, zone headers, chunks. */
module SlabGeometry {

  type Addr = nat

  const PAGE: nat := 4096
  const ZONES: nat := 72             // NZONES
  const HEADER: nat := 36            // sizeof(slab_zone) with 32-bit pointers
  const LIMIT: nat := 16384          // ZALLOC_ZONE_LIMIT

  // zoneindex

  /** What zoneindex returns and what it leaves in its argument. */
  datatype SizeClass = SizeClass(index: int, chunk: nat)

  function RoundUp(n: nat, unit: nat): nat
    requires unit > 0
  {
    (n + unit - 1) / unit * unit
  }

  function ZoneIndex(n: nat): SizeClass {
    if n < 128 then SizeClass(RoundUp(n, 8) / 8 - 1, RoundUp(n, 8))
    else if n < 256 then SizeClass(RoundUp(n, 16) / 16 + 7, RoundUp(n, 16))
    else if n < 512 then SizeClass(RoundUp(n, 32) / 32 + 15, RoundUp(n, 32))
    else if n < 1024 then SizeClass(RoundUp(n, 64) / 64 + 23, RoundUp(n, 64))
    else if n < 2048 then SizeClass(RoundUp(n, 128) / 128 + 31, RoundUp(n, 128))
    else if n < 4096 then SizeClass(RoundUp(n, 256) / 256 + 39, RoundUp(n, 256))
    else if n < 8192 then SizeClass(RoundUp(n, 512) / 512 + 47, RoundUp(n, 512))
    else if n < 16384 then SizeClass(RoundUp(n, 1024) / 1024 + 55, RoundUp(n, 1024))
    else SizeClass(0, n)
  }

  /** zoneindex writes the chunk size through its pointer argument. */
  method Zoneindex(n: nat) returns (index: int, bytes: nat)
    ensures SizeClass(index, bytes) == ZoneIndex(n)
    ensures 0 < n < 16384 ==> 0 <= index < ZONES && n <= bytes && bytes == ChunkOf(index)
  {
    if 0 < n < 16384 { ZoneIndexOk(n); }
    bytes := n;
    if n < 128 {
      bytes := (n + 7) / 8 * 8;
      return bytes / 8 - 1, bytes;
    }
    if n < 256 {
      bytes := (n + 15) / 16 * 16;
      return bytes / 16 + 7, bytes;
    }
    if n < 8192 {
      if n < 512 {
        bytes := (n + 31) / 32 * 32;
        return bytes / 32 + 15, bytes;
      }
      if n < 1024 {
        bytes := (n + 63) / 64 * 64;
        return bytes / 64 + 23, bytes;
      }
      if n < 2048 {
        bytes := (n + 127) / 128 * 128;
        return bytes / 128 + 31, bytes;
      }
      if n < 4096 {
        bytes := (n + 255) / 256 * 256;
        return bytes / 256 + 39, bytes;
      }
      bytes := (n + 511) / 512 * 512;
      return bytes / 512 + 47, bytes;
    }
    if n < 16384 {
      bytes := (n + 1023) / 1024 * 1024;
      return bytes / 1024 + 55, bytes;
    }
    index := 0;
  }

  /** The chunk size of every zone index. */
  function ChunkOf(i: int): int {
    if i <= 15 then 8 * (i + 1) else if i <= 23 then 16 * (i - 7) else if i <= 31 then 32 * (i - 15)
    else if i <= 39 then 64 * (i - 23) else if i <= 47 then 128 * (i - 31) else if i <= 55 then 256 * (i - 39)
    else if i <= 63 then 512 * (i - 47) else 1024 * (i - 55)
  }

  ghost predicate ClassOk(n: nat, c: SizeClass) {
    && 0 <= c.index < ZONES && c.chunk == ChunkOf(c.index) && n <= c.chunk <= 16384 && c.chunk % 8 == 0
    && (n < 128 ==> c.chunk - n < 8) && (n >= 128 ==> (c.chunk - n) * 8 < n)
  }

  lemma Class8(n: nat)
    requires 0 < n < 128
    ensures ClassOk(n, ZoneIndex(n))
  {
  }

  lemma Class16(n: nat)
    requires 128 <= n < 256
    ensures ClassOk(n, ZoneIndex(n))
  {
  }

  lemma Class32(n: nat)
    requires 256 <= n < 512
    ensures ClassOk(n, ZoneIndex(n))
  {
  }

  lemma Class64(n: nat)
    requires 512 <= n < 1024
    ensures ClassOk(n, ZoneIndex(n))
  {
  }

  lemma Class128(n: nat)
    requires 1024 <= n < 2048
    ensures ClassOk(n, ZoneIndex(n))
  {
  }

  lemma Class256(n: nat)
    requires 2048 <= n < 4096
    ensures ClassOk(n, ZoneIndex(n))
  {
  }

  lemma Class512(n: nat)
    requires 4096 <= n < 8192
    ensures ClassOk(n, ZoneIndex(n))
  {
  }

  lemma Class1024(n: nat)
    requires 8192 <= n < 16384
    ensures ClassOk(n, ZoneIndex(n))
  {
  }

  /** Every request below the limit gets one of 72 chunk sizes, which wastes less than eight bytes or
      an eighth of the request. */
  lemma ZoneIndexOk(n: nat)
    requires 0 < n < 16384
    ensures ClassOk(n, ZoneIndex(n))
  {
    hide ZoneIndex, ClassOk;
    if n < 128 {
      Class8(n);
    } else if n < 256 {
      Class16(n);
    } else if n < 512 {
      Class32(n);
    } else if n < 1024 {
      Class64(n);
    } else if n < 2048 {
      Class128(n);
    } else if n < 4096 {
      Class256(n);
    } else if n < 8192 {
      Class512(n);
    } else {
      Class1024(n);
    }
  }

  /** Requests get the same zone index exactly if they get the same chunk size. */
  lemma SameClass(m: nat, n: nat)
    requires 0 < m < 16384 && 0 < n < 16384
    ensures ZoneIndex(m).index == ZoneIndex(n).index <==> ZoneIndex(m).chunk == ZoneIndex(n).chunk
  {
    hide ZoneIndex;
    ZoneIndexOk(m);
    ZoneIndexOk(n);
  }

  // Powers of two

  predicate Power2(n: nat) { n == 1 || (n > 1 && n % 2 == 0 && Power2(n / 2)) }

  // Single operations on words, named so that proofs need not look inside them
  function Half(x: bv32): (h: bv32)
    ensures x != 0 ==> h < x
  {
    x >> 1
  }
  predicate Odd(x: bv32) { x & 1 == 1 }
  predicate OneBit(x: bv32) { x & (x - 1) == 0 }
  predicate BitTest(x: bv32) { (x | (x - 1)) + 1 == x << 1 }

  /** The number that has the bits of the word as its binary digits. */
  function Number(x: bv32): nat
    decreases x
  {
    if x == 0 then 0 else 2 * Number(Half(x)) + (if Odd(x) then 1 else 0)
  }

  lemma BitsOfHalf(x: bv32)
    requires x != 0
    ensures !Odd(x) ==> Half(x) != 0 && (OneBit(x) <==> OneBit(Half(x)))
    ensures Odd(x) ==> (OneBit(x) <==> Half(x) == 0)
  {
  }

  lemma {:induction false} OneBitPower(x: bv32)
    requires x != 0
    ensures Number(x) > 0 && (OneBit(x) <==> Power2(Number(x)))
    decreases x
  {
    hide OneBit, Half, Odd;
    BitsOfHalf(x);
    if Half(x) != 0 {
      OneBitPower(Half(x));
    }
  }

  lemma TestBit(x: bv32)
    requires x != 0
    ensures BitTest(x) <==> OneBit(x)
  {
  }

  /** The bit test of rt_malloc says whether a size is a power of two. */
  lemma PowerTest(x: bv32)
    requires x != 0
    ensures BitTest(x) <==> Power2(Number(x))
  {
    hide OneBit, BitTest;
    TestBit(x);
    OneBitPower(x);
  }

  /** Where the chunks start in a zone. */
  function Offset(chunk: nat): nat
    requires chunk > 0
  {
    if Power2(chunk) then RoundUp(HEADER, chunk) else RoundUp(HEADER, 8)
  }

  lemma RoundUpOk(n: nat, unit: nat)
    requires unit > 0
    ensures n <= RoundUp(n, unit) < n + unit && RoundUp(n, unit) % unit == 0
  {
    var q := (n + unit - 1) / unit;
    assert n + unit - 1 == q * unit + (n + unit - 1) % unit;
    MulMod(q, unit);
  }

  lemma DivMul(q: int, unit: int, r: int)
    requires 0 <= r < unit
    ensures (q * unit + r) / unit == q && (q * unit + r) % unit == r
  {
    var x := q * unit + r;
    var d := x / unit;
    assert x == d * unit + x % unit;
    if q > d {
      MulLess(d + 1, q, unit);
    } else if q < d {
      MulLess(q + 1, d, unit);
    }
  }

  lemma MulMod(q: int, unit: int)
    requires unit > 0
    ensures (q * unit) % unit == 0 && (q * unit) / unit == q
  {
    DivMul(q, unit, 0);
  }

  // Zones of `size` bytes at page `z`

  function MaxChunks(size: nat, chunk: nat): int
    requires chunk > 0
  {
    (size - Offset(chunk)) / chunk
  }

  function ChunkAt(base: Addr, chunk: nat, k: int): int { base + k * chunk }

  function IndexIn(base: Addr, chunk: nat, a: Addr): int { if chunk == 0 then 0 else (a - base) / chunk }

  lemma ChunkIndex(base: Addr, chunk: nat, k: int, a: Addr)
    requires chunk > 0 && a == ChunkAt(base, chunk, k)
    ensures IndexIn(base, chunk, a) == k
  {
    MulMod(k, chunk);
  }

  /** Chunks lie inside their zone, behind its header, and apart from one another. */
  lemma ChunkInside(z: nat, size: nat, chunk: nat, k: int)
    requires chunk > 0 && 0 <= k < MaxChunks(size, chunk)
    ensures var a := ChunkAt(z * PAGE + Offset(chunk), chunk, k);
      z * PAGE + HEADER <= a && a + chunk <= z * PAGE + size
  {
    RoundUpOk(HEADER, chunk);
    RoundUpOk(HEADER, 8);
    var room := size - Offset(chunk);
    var n := MaxChunks(size, chunk);
    assert n * chunk <= room;
    MulLess(k + 1, n, chunk);
    assert (k + 1) * chunk == k * chunk + chunk;
    MulLess(0, k, chunk);
  }

  lemma MulLess(a: int, b: int, c: nat)
    requires a <= b
    ensures a * c <= b * c
  {
  }

  lemma ChunksApart(base: Addr, chunk: nat, j: int, k: int)
    requires chunk > 0 && j < k
    ensures ChunkAt(base, chunk, j) + chunk <= ChunkAt(base, chunk, k)
  {
    MulLess(j + 1, k, chunk);
    assert (j + 1) * chunk == j * chunk + chunk;
  }

  /** A power-of-two chunk is aligned to its size exactly if its zone is. */
  lemma AlignedExact(z: nat, chunk: nat, k: nat)
    requires chunk > 0 && Power2(chunk)
    ensures ChunkAt(z * PAGE + Offset(chunk), chunk, k) % chunk == 0 <==> (z * PAGE) % chunk == 0
  {
    RoundUpOk(HEADER, chunk);
    MulMod(k, chunk);
    ModAdd(z * PAGE, Offset(chunk), chunk);
    ModAdd(z * PAGE + Offset(chunk), k * chunk, chunk);
  }

  lemma ModAdd(a: int, b: int, c: int)
    requires c > 0 && b % c == 0
    ensures (a + b) % c == a % c
  {
    var q := b / c;
    assert b == q * c;
    ModShift(a, q, c);
  }

  lemma Spread(d: int, q: int, c: int)
    ensures (d + q) * c == d * c + q * c
  {
  }

  lemma ModShift(a: int, q: int, c: int)
    requires c > 0
    ensures (a + q * c) % c == a % c
  {
    var d, r := a / c, a % c;
    assert a == d * c + r;
    Spread(d, q, c);
    var e := d + q;
    DivMul(e, c, r);
    assert a + q * c == e * c + r;
  }

  /** Up to a page every power-of-two chunk is aligned. */
  lemma SmallAligned(z: nat, i: int)
    requires 0 <= i < ZONES && Power2(ChunkOf(i)) && ChunkOf(i) <= PAGE
    ensures (z * PAGE) % ChunkOf(i) == 0
  {
    var c := ChunkOf(i);
    PowersInPage(i);
    assert z * PAGE == (z * (PAGE / c)) * c by { DividesPage(z, c); }
    MulMod(z * (PAGE / c), c);
  }

  lemma DividesPage(z: nat, c: nat)
    requires c > 0 && PAGE % c == 0
    ensures z * PAGE == (z * (PAGE / c)) * c
  {
    var q := PAGE / c;
    assert PAGE == q * c;
  }

  lemma PowersInPage(i: int)
    requires 0 <= i < ZONES && Power2(ChunkOf(i)) && ChunkOf(i) <= PAGE
    ensures PAGE % ChunkOf(i) == 0
  {
    var c := ChunkOf(i);
    PowerValue(c);
  }

  /** The powers of two among the chunk sizes. */
  lemma PowerValue(n: nat)
    requires Power2(n) && 8 <= n < 16384
    ensures n in {8, 16, 32, 64, 128, 256, 512, 1024, 2048, 4096, 8192}
  {
    if n > 8 {
      assert Power2(n / 2) && n == n / 2 * 2;
      assert !Power2(5) && !Power2(7) && !Power2(3) && !Power2(6);
      if n / 2 >= 8 {
        PowerValue(n / 2);
      }
    }
  }

  lemma Power8192()
    ensures Power2(8192)
  {
    Double(1);
    Double(2);
    Double(4);
    Double(8);
    Double(16);
    Double(32);
    Double(64);
    Double(128);
    Double(256);
    Double(512);
    Double(1024);
    Double(2048);
    Double(4096);
  }

  lemma Double(n: nat)
    requires Power2(n)
    ensures Power2(2 * n)
  {
    assert 2 * n / 2 == n;
  }
}
