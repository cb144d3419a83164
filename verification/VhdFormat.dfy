/** The dynamic VHD layout written by the converter: header contents, the block
    allocation table (BAT), its bitmap, and where every piece is placed. */
module VhdFormat {
  import opened Bytes
  import opened Struct
  import opened VhdGeometry

  // Sizes are written out where they multiply or divide: 512 bytes a sector,
  // 2097152 bytes (4096 sectors) a block, 4104 sectors from one block to the next.
  const BLOCK_SIZE: nat := 2097152
  const BLOCK_SECTORS: nat := 4096
  const BITMAP_SIZE: nat := 512
  const BITMAP_SECTORS: nat := 1
  const TOTAL_BLOCK_SECTORS: nat := 4104

  /** The largest number of BAT entries whose values all fit in 32 bits. */
  const MAX_ENTRIES: nat := 1046530

  /** The largest input those entries can describe. */
  const MAX_SIZE: nat := 2194732482560

  const HEADER_FMT: seq<Code> := [
    Text(8), Unsigned(4), Unsigned(4), Unsigned(8), Unsigned(4), Text(4), Unsigned(4), Unsigned(4), Unsigned(8),
    Unsigned(8), Unsigned(2), Unsigned(1), Unsigned(1), Unsigned(4), Unsigned(4), Text(16), Unsigned(1), Text(427)]

  const DYNAMIC_FMT: seq<Code> := [
    Text(8), Unsigned(8), Unsigned(8), Unsigned(4), Unsigned(4), Unsigned(4), Unsigned(4), Text(16), Unsigned(4),
    Unsigned(4), Text(512), Text(192), Text(256)]

  const BAT_HDR_FMT: seq<Code> := [Text(8), Unsigned(8), Unsigned(4), Unsigned(4), Unsigned(4)]

  /** An ASCII literal as bytes. */
  function Ascii(s: string): (b: seq<byte>)
    requires forall i :: 0 <= i < |s| ==> s[i] as int < 128
    ensures |b| == |s|
  {
    seq(|s|, i requires 0 <= i < |s| => s[i] as int)
  }

  const FOOTER_COOKIE: seq<byte> := Ascii("conectix")
  const DYNAMIC_COOKIE: seq<byte> := Ascii("cxsparse")
  const BATMAP_COOKIE: seq<byte> := Ascii("tdbatmap")

  // ----- Layout arithmetic -----

  function Entries(size: nat): nat { Divro(size, 2097152) }

  function BatSectors(n: nat): nat { Divro(n * 4, 512) }

  function BatmapSectors(n: nat): nat { Divro(Divro(n, 8), 512) }

  function FirstBlock(n: nat): nat { 3 + BatSectors(n) + 1 + BatmapSectors(n) }

  /** The value of BAT entry `k`: the first sector of block `k`. */
  function BlockSector(n: nat, k: nat): nat { FirstBlock(n) + k * 4104 }

  function BatmapOffset(n: nat): nat { (3 + BatSectors(n) + 1) * 512 }

  function BatValues(n: nat, upTo: nat): (v: seq<nat>)
    ensures |v| == upTo && forall k :: 0 <= k < upTo ==> v[k] == BlockSector(n, k)
  {
    seq(upTo, k requires k >= 0 => BlockSector(n, k))
  }

  /** Whether `struct.pack(">I", ...)` accepts every BAT entry. */
  predicate BatFits(n: nat) { forall k :: 0 <= k < n ==> BlockSector(n, k) < U32 }

  /** The bound on the input size below which every BAT entry fits 32 bits. */
  lemma BatFitsExactly(size: nat)
    ensures BatFits(Entries(size)) <==> size <= MAX_SIZE
  {
    var n := Entries(size);
    assert size <= MAX_SIZE <==> n <= MAX_ENTRIES;
    if n > MAX_ENTRIES {
      assert BlockSector(n, n - 1) >= U32;
    } else {
      forall k | 0 <= k < n
        ensures BlockSector(n, k) < U32
      {
        assert BlockSector(n, k) <= BlockSector(n, n - 1);
      }
    }
  }

  // ----- Contents -----

  function PackedBat(values: seq<nat>): (b: seq<byte>)
    ensures |b| == 4 * |values|
  {
    if values == [] then [] else PackedBat(values[..|values| - 1]) + BigEndian(values[|values| - 1], 4)
  }

  lemma {:induction false} BatEntryAt(values: seq<nat>, k: nat)
    requires k < |values| && forall i :: 0 <= i < |values| ==> values[i] < U32
    ensures NumberAt(PackedBat(values), 4 * k, 4) == values[k]
  {
    var front := values[..|values| - 1];
    if k == |front| {
      Pow256Values();
      BigEndianRoundTrip(values[k], 4);
      assert PackedBat(values)[4 * k..4 * k + 4] == BigEndian(values[k], 4);
    } else {
      BatEntryAt(front, k);
      assert PackedBat(values)[4 * k..4 * k + 4] == PackedBat(front)[4 * k..4 * k + 4];
    }
  }

  function Pow2(k: nat): (p: nat)
    ensures p > 0
  {
    if k == 0 then 1 else 2 * Pow2(k - 1)
  }

  /** `(0xFF << k) & 0xFF`. */
  function HighBits(k: nat): byte { 0xFF * Pow2(k) % 0x100 }

  /** Whether bit `j` of a bitmap is set, most significant bit first. */
  predicate BitSet(bits: seq<byte>, j: nat)
    requires j / 8 < |bits|
  {
    bits[j / 8] / Pow2(7 - j % 8) % 2 == 1
  }

  function Batmap(n: nat): (b: seq<byte>)
    ensures |b| == Divro(n, 8)
  {
    seq(n / 8, _ => 0xFF) + if n % 8 != 0 then [HighBits(8 - n % 8)] else []
  }

  lemma Pow2Values()
    ensures Pow2(0) == 1 && Pow2(1) == 2 && Pow2(2) == 4 && Pow2(3) == 8
    ensures Pow2(4) == 16 && Pow2(5) == 32 && Pow2(6) == 64 && Pow2(7) == 128
  {
  }

  /** In the bitmap of the BAT exactly the bits of existing entries are set. */
  lemma BatmapBits(n: nat, j: nat)
    requires j < 8 * |Batmap(n)|
    ensures BitSet(Batmap(n), j) <==> j < n
  {
    Pow2Values();
    var r := j % 8;
    if j / 8 < n / 8 {
      FullByteBit(r);
    } else {
      assert Batmap(n)[j / 8] == HighBits(8 - n % 8);
      HighBitsBit(n % 8, r);
    }
  }

  lemma FullByteBit(r: nat)
    requires r < 8
    ensures 0xFF / Pow2(7 - r) % 2 == 1
  {
    Pow2Values();
    if r < 4 {
      assert r == 0 || r == 1 || r == 2 || r == 3;
    } else {
      assert r == 4 || r == 5 || r == 6 || r == 7;
    }
  }

  lemma HighBitsValues()
    ensures HighBits(7) == 128 && HighBits(6) == 192 && HighBits(5) == 224 && HighBits(4) == 240
    ensures HighBits(3) == 248 && HighBits(2) == 252 && HighBits(1) == 254
  {
    Pow2Values();
  }

  lemma HighBitsBit(extra: nat, r: nat)
    requires 0 < extra < 8 && r < 8
    ensures HighBits(8 - extra) / Pow2(7 - r) % 2 == 1 <==> r < extra
  {
    Pow2Values();
    HighBitsValues();
    if r < 4 {
      assert r == 0 || r == 1 || r == 2 || r == 3;
    } else {
      assert r == 4 || r == 5 || r == 6 || r == 7;
    }
  }

  /** The sector bitmap of a fully allocated block. */
  function FullBitmap(): (b: seq<byte>)
    ensures |b| == BITMAP_SIZE && forall i :: 0 <= i < |b| ==> b[i] == 0xFF
  {
    seq(BITMAP_SIZE, _ => 0xFF)
  }

  function FooterVals(size: nat, uuid: seq<byte>, checksum: nat): seq<Value> {
    var g := VhdChs(size);
    [Str(FOOTER_COOKIE), Num(2), Num(0x1_0000), Num(512), Num(0), Str(Ascii("tap")), Num(0x1_0003), Num(0),
     Num(size), Num(size), Num(g.cylinders), Num(g.heads), Num(g.spt), Num(3), Num(checksum), Str(uuid), Num(0),
     Str(Zeros(426))]
  }

  function DynamicVals(entries: nat, checksum: nat): seq<Value> {
    [Str(DYNAMIC_COOKIE), Num(0xFFFF_FFFF_FFFF_FFFF), Num(1536), Num(0x1_0000), Num(entries), Num(BLOCK_SIZE),
     Num(checksum), Str(Zeros(15)), Num(0), Num(0), Str(Zeros(511)), Str(Zeros(191)), Str(Zeros(255))]
  }

  function BatmapVals(n: nat): seq<Value> {
    [Str(BATMAP_COOKIE), Num(BatmapOffset(n)), Num(BatmapSectors(n)), Num(0x1_0002), Num(Checksum(Batmap(n)))]
  }

  lemma FooterValsFit(size: nat, uuid: seq<byte>, checksum: nat)
    requires size <= MAX_SIZE && checksum < U32
    ensures Fits(HEADER_FMT, FooterVals(size, uuid, checksum))
  {
    Pow256Values();
    FieldRanges(size);
  }

  lemma DynamicValsFit(entries: nat, checksum: nat)
    requires entries <= MAX_ENTRIES && checksum < U32
    ensures Fits(DYNAMIC_FMT, DynamicVals(entries, checksum))
  {
    Pow256Values();
  }

  lemma BatmapValsFit(n: nat)
    requires n <= MAX_ENTRIES
    ensures Fits(BAT_HDR_FMT, BatmapVals(n))
  {
    Pow256Values();
    assert Sum(Batmap(n)) <= 255 * Divro(n, 8) < U32;
  }

  lemma HeaderOffsets()
    ensures Offset(HEADER_FMT, 3) == 16 && Offset(HEADER_FMT, 9) == 48
    ensures Offset(HEADER_FMT, 14) == 64 && Offset(HEADER_FMT, 18) == 512
  {
    assert Offset(HEADER_FMT, 6) == 32;
    assert Offset(HEADER_FMT, 12) == 59;
    assert Offset(HEADER_FMT, 16) == 84;
  }

  lemma DynamicOffsets()
    ensures Offset(DYNAMIC_FMT, 2) == 16 && Offset(DYNAMIC_FMT, 4) == 28 && Offset(DYNAMIC_FMT, 5) == 32
    ensures Offset(DYNAMIC_FMT, 6) == 36 && Offset(DYNAMIC_FMT, 13) == 1024
  {
    assert Offset(DYNAMIC_FMT, 9) == 60;
    assert Offset(DYNAMIC_FMT, 11) == 576;
  }
}
