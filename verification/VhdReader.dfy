/** A reader of dynamic VHD files written from the Virtual Hard Disk Image Format
    Specification alone: it starts from the bytes of the file, not from what the
    converter meant to write. */
module VhdReader {
  import opened Basics
  import opened Bytes
  import opened Struct
  import opened VhdGeometry
  import opened VhdFormat
  import opened VhdLayout
  import opened VhdWriter

  /** "Hard Disk Footer Format": cookie at 0 and checksum at 64 of a 512-byte
      structure. */
  predicate ValidFooter(h: seq<byte>) {
    |h| == 512 && h[..8] == FOOTER_COOKIE && NumberAt(h, 64, 4) == Checksum(Blank(h, 64, 4))
  }

  /** "Dynamic Disk Header Format": cookie at 0 and checksum at 36. */
  predicate ValidDynamicHeader(h: seq<byte>) {
    |h| == 1024 && h[..8] == DYNAMIC_COOKIE && NumberAt(h, 36, 4) == Checksum(Blank(h, 36, 4))
  }

  /** What the two headers say about the disk. */
  datatype Geometry = Geometry(size: nat, table: nat, entries: nat, blockSize: nat)

  /** Reads the footer at the end of the file and the dynamic header it points to. */
  function ReadGeometry(f: seq<byte>): Option<Geometry> {
    if |f| < 512 || !ValidFooter(f[|f| - 512..]) then None
    else
      var footer := f[|f| - 512..];
      var at := NumberAt(footer, 16, 8);
      if |f| < at + 1024 || !ValidDynamicHeader(f[at..at + 1024]) then None
      else
        var dyn := f[at..at + 1024];
        Some(Geometry(NumberAt(footer, 48, 8), NumberAt(dyn, 16, 8), NumberAt(dyn, 28, 4), NumberAt(dyn, 32, 4)))
  }

  /** "Mapping a Disk Sector to a Sector in the Block": sector `s` lies in block
      `s / perBlock`; an unused BAT entry or a clear bitmap bit means zeros. */
  function ReadSector(f: seq<byte>, g: Geometry, s: nat): Option<seq<byte>> {
    var perBlock := g.blockSize / 512;
    if perBlock == 0 || s / perBlock >= g.entries || |f| < g.table + 4 * (s / perBlock) + 4 then None
    else ReadInBlock(f, NumberAt(f, g.table + 4 * (s / perBlock), 4), perBlock, s % perBlock)
  }

  function ReadInBlock(f: seq<byte>, entry: nat, perBlock: nat, inBlock: nat): Option<seq<byte>> {
    var bitmapSectors := Divro(Divro(perBlock, 8), 512);
    if entry == 0xFFFF_FFFF then Some(Zeros(512))
    else if |f| < entry * 512 + inBlock / 8 + 1 then None
    else if !BitSet(f[entry * 512..], inBlock) then Some(Zeros(512))
    else if |f| < (entry + bitmapSectors + inBlock) * 512 + 512 then None
    else Some(f[(entry + bitmapSectors + inBlock) * 512..(entry + bitmapSectors + inBlock) * 512 + 512])
  }

  /** The first `count` sectors, each read by `read`. */
  function ReadSectors(read: nat -> Option<seq<byte>>, count: nat): Option<seq<byte>> {
    if count == 0 then Some([])
    else
      var front, last := ReadSectors(read, count - 1), read(count - 1);
      if front.None? || last.None? then None else Some(front.value + last.value)
  }

  function SectorReader(f: seq<byte>, g: Geometry): nat -> Option<seq<byte>> {
    s => ReadSector(f, g, s)
  }

  function Trim(sectors: Option<seq<byte>>, size: nat): Option<seq<byte>> {
    if sectors.None? || |sectors.value| < size then None else Some(sectors.value[..size])
  }

  /** The whole virtual disk: `Current Size` bytes. */
  function ReadDisk(f: seq<byte>): Option<seq<byte>> {
    var g := ReadGeometry(f);
    if g.None? then None
    else Trim(ReadSectors(SectorReader(f, g.value), Divro(g.value.size, 512)), g.value.size)
  }

  // ----- Self-description -----

  lemma CookieField(cookie: seq<byte>)
    requires |cookie| == 8
    ensures PackField(Text(8), Str(cookie)) == cookie
  {
  }

  /** The footer's cookie, checksum, size and data offset as a reader finds them. */
  lemma FooterReads(job: Job)
    requires Small(job)
    ensures ValidFooter(Footer(job))
    ensures NumberAt(Footer(job), 16, 8) == 512 && NumberAt(Footer(job), 48, 8) == |job.input|
  {
    var checksum := Checksum(FooterWith(job, 0));
    var vals := FooterVals(|job.input|, job.uuid, checksum);
    FooterValsFit(|job.input|, job.uuid, checksum);
    HeaderOffsets();
    FieldAt(HEADER_FMT, vals, 0);
    CookieField(FOOTER_COOKIE);
    NumberField(HEADER_FMT, vals, 3);
    NumberField(HEADER_FMT, vals, 9);
    NumberField(HEADER_FMT, vals, 14);
    BlankedField(HEADER_FMT, vals, 14);
    assert vals[14 := Num(0)] == FooterVals(|job.input|, job.uuid, 0);
  }

  lemma DynamicHeaderReads(job: Job)
    requires Small(job)
    ensures ValidDynamicHeader(DynamicHeader(job))
    ensures NumberAt(DynamicHeader(job), 16, 8) == 1536 && NumberAt(DynamicHeader(job), 28, 4) == N(job)
    ensures NumberAt(DynamicHeader(job), 32, 4) == BLOCK_SIZE
  {
    var checksum := Checksum(DynamicWith(job, 0));
    var vals := DynamicVals(N(job), checksum);
    DynamicValsFit(N(job), checksum);
    DynamicOffsets();
    FieldAt(DYNAMIC_FMT, vals, 0);
    CookieField(DYNAMIC_COOKIE);
    NumberField(DYNAMIC_FMT, vals, 2);
    NumberField(DYNAMIC_FMT, vals, 4);
    NumberField(DYNAMIC_FMT, vals, 5);
    NumberField(DYNAMIC_FMT, vals, 6);
    BlankedField(DYNAMIC_FMT, vals, 6);
    assert vals[6 := Num(0)] == DynamicVals(N(job), 0);
  }

  predicate ZeroValue(v: Value) {
    v == Num(0) || (v.Str? && forall k :: 0 <= k < |v.s| ==> v.s[k] == 0)
  }

  lemma ZeroField(fmt: seq<Code>, vals: seq<Value>, i: nat, p: nat)
    requires Fits(fmt, vals) && i < |fmt| && Offset(fmt, i) <= p < Offset(fmt, i) + fmt[i].width
    requires ZeroValue(vals[i])
    ensures p < |Pack(fmt, vals)| && Pack(fmt, vals)[p] == 0
  {
    FieldAt(fmt, vals, i);
    ZeroPacked(fmt[i], vals[i], p - Offset(fmt, i));
    SliceIndex(Pack(fmt, vals), Offset(fmt, i), PackField(fmt[i], vals[i]), p);
  }

  lemma ZeroPacked(c: Code, v: Value, o: nat)
    requires FieldFits(c, v) && o < c.width
    requires ZeroValue(v)
    ensures PackField(c, v)[o] == 0
  {
    if c.Unsigned? {
      BigEndianOfZero(c.width);
    }
  }

  lemma SliceIndex(b: seq<byte>, at: nat, part: seq<byte>, p: nat)
    requires at <= p < at + |part| <= |b| && b[at..at + |part|] == part
    ensures b[p] == part[p - at]
  {
    assert b[at..at + |part|][p - at] == b[p];
  }

  lemma ParentOffsets()
    ensures Offset(DYNAMIC_FMT, 1) == 8 && Offset(DYNAMIC_FMT, 4) == 28 && Offset(DYNAMIC_FMT, 3) == 24
    ensures Offset(DYNAMIC_FMT, 7) == 40 && Offset(DYNAMIC_FMT, 8) == 56 && Offset(DYNAMIC_FMT, 9) == 60
    ensures Offset(DYNAMIC_FMT, 10) == 64 && Offset(DYNAMIC_FMT, 11) == 576 && Offset(DYNAMIC_FMT, 12) == 768
  {
    assert Offset(DYNAMIC_FMT, 5) == 32;
  }

  /** The field of the dynamic header that covers byte `p` of its parent part. */
  function ParentField(p: nat): nat {
    if p < 56 then 7 else if p < 60 then 8 else if p < 64 then 9 else if p < 576 then 10 else if p < 768 then 11 else 12
  }

  /** The other fields of the dynamic header: the unused data offset, the header
      version, and no parent, so that every byte from 40 on is zero. */
  lemma DynamicFields(job: Job, p: nat)
    requires Small(job) && 40 <= p < 1024
    ensures var h := DynamicHeader(job);
      NumberAt(h, 8, 8) == 0xFFFF_FFFF_FFFF_FFFF && NumberAt(h, 24, 4) == 0x1_0000 && h[p] == 0
  {
    var checksum := Checksum(DynamicWith(job, 0));
    var vals := DynamicVals(N(job), checksum);
    DynamicValsFit(N(job), checksum);
    ParentOffsets();
    NumberField(DYNAMIC_FMT, vals, 1);
    NumberField(DYNAMIC_FMT, vals, 3);
    ZeroField(DYNAMIC_FMT, vals, ParentField(p), p);
  }

  /** The other fields a reader of the footer relies on: format version, both
      sizes, the geometry of GeometryCovers, and the dynamic disk type. */
  lemma FooterFields(job: Job)
    requires Small(job)
    ensures var h := Footer(job); var g := VhdChs(|job.input|);
      && NumberAt(h, 12, 4) == 0x1_0000 && NumberAt(h, 40, 8) == |job.input| == NumberAt(h, 48, 8)
      && NumberAt(h, 56, 2) == g.cylinders && NumberAt(h, 58, 1) == g.heads && NumberAt(h, 59, 1) == g.spt
      && NumberAt(h, 60, 4) == 3
  {
    var checksum := Checksum(FooterWith(job, 0));
    var vals := FooterVals(|job.input|, job.uuid, checksum);
    FooterValsFit(|job.input|, job.uuid, checksum);
    FooterOffsets();
    NumberField(HEADER_FMT, vals, 2);
    NumberField(HEADER_FMT, vals, 8);
    NumberField(HEADER_FMT, vals, 9);
    NumberField(HEADER_FMT, vals, 10);
    NumberField(HEADER_FMT, vals, 11);
    NumberField(HEADER_FMT, vals, 12);
    NumberField(HEADER_FMT, vals, 13);
  }

  lemma FooterOffsets()
    ensures Offset(HEADER_FMT, 2) == 12 && Offset(HEADER_FMT, 8) == 40 && Offset(HEADER_FMT, 9) == 48
    ensures Offset(HEADER_FMT, 10) == 56 && Offset(HEADER_FMT, 11) == 58 && Offset(HEADER_FMT, 12) == 59
    ensures Offset(HEADER_FMT, 13) == 60
  {
    assert Offset(HEADER_FMT, 3) == 16;
    assert Offset(HEADER_FMT, 6) == 32;
  }

  lemma BatmapOffsets()
    ensures Offset(BAT_HDR_FMT, 1) == 8 && Offset(BAT_HDR_FMT, 2) == 16
    ensures Offset(BAT_HDR_FMT, 4) == 24 && Offset(BAT_HDR_FMT, 5) == 28
  {
  }

  /** The bitmap's header as a reader finds it. */
  lemma BatmapHeaderReads(job: Job)
    requires Small(job)
    ensures Describes(BatmapHeader(job), N(job), Batmap(N(job)))
  {
    var vals := BatmapVals(N(job));
    BatmapValsFit(N(job));
    BatmapOffsets();
    FieldAt(BAT_HDR_FMT, vals, 0);
    CookieField(BATMAP_COOKIE);
    NumberField(BAT_HDR_FMT, vals, 1);
    NumberField(BAT_HDR_FMT, vals, 2);
    NumberField(BAT_HDR_FMT, vals, 4);
  }

  // ----- Reading an image back -----

  /** The two footers, the dynamic header and the BAT of a finished canvas. */
  lemma CanvasHeaders(f: seq<byte>, l: Pieces)
    requires Sized(l) && Canvas(f, Plan(l))
    ensures HoldsHeaders(f, l)
  {
    var es := Plan(l);
    HeaderExtents(l);
    assert Placed(f, es[0]) && Placed(f, es[1]) && Placed(f, es[2]) && Placed(f, es[5 + 2 * l.n]);
  }

  /** All that the reader uses of an image: the headers and the blocks. */
  predicate HoldsHeaders(f: seq<byte>, l: Pieces) {
    && |f| >= 1536 + |l.bat| && f[..512] == l.footer && f[|f| - 512..] == l.footer && f[512..1536] == l.dynamic
    && f[1536..1536 + |l.bat|] == l.bat
  }

  predicate HoldsBlocks(f: seq<byte>, n: nat, input: seq<byte>) {
    n == Entries(|input|) && forall k :: 0 <= k < n ==> BlockAt(f, BlockSector(n, k), BlockOf(input, k))
  }

  predicate Holds(f: seq<byte>, job: Job)
    requires Convertible(job)
  {
    HoldsHeaders(f, PiecesOf(job)) && HoldsBlocks(f, N(job), job.input)
  }

  lemma ImageHolds(f: seq<byte>, job: Job)
    requires Convertible(job) && IsImage(f, job)
    ensures Holds(f, job)
  {
    CanvasHeaders(f, PiecesOf(job));
    CanvasBlocks(f, PiecesOf(job));
  }

  lemma CanvasBlocks(f: seq<byte>, l: Pieces)
    requires Sized(l) && Canvas(f, Plan(l))
    ensures HoldsBlocks(f, l.n, l.input)
  {
    forall k | 0 <= k < l.n
      ensures BlockAt(f, BlockSector(l.n, k), BlockOf(l.input, k))
    {
      CanvasBlockAt(f, l, k);
    }
  }

  lemma ImageGeometry(f: seq<byte>, job: Job)
    requires Convertible(job) && Holds(f, job)
    ensures ReadGeometry(f) == Some(Geometry(|job.input|, 1536, N(job), BLOCK_SIZE))
  {
    FooterReads(job);
    DynamicHeaderReads(job);
  }

  lemma SubSlice(f: seq<byte>, at: nat, part: seq<byte>, o: nat, width: nat)
    requires at + |part| <= |f| && f[at..at + |part|] == part && o + width <= |part|
    ensures f[at + o..at + o + width] == part[o..o + width]
    ensures NumberAt(f, at + o, width) == NumberAt(part, o, width)
  {
    var a, b := f[at + o..at + o + width], part[o..o + width];
    forall i | 0 <= i < |a|
      ensures a[i] == b[i]
    {
      assert f[at + o + i] == f[at..at + |part|][o + i];
    }
    assert a == b;
  }

  lemma BatEntryInFile(f: seq<byte>, bat: seq<byte>, values: seq<nat>, k: nat)
    requires 1536 + |bat| <= |f| && f[1536..1536 + |bat|] == bat
    requires k < |values| && |bat| == 4 * |values| && NumberAt(bat, 4 * k, 4) == values[k]
    ensures NumberAt(f, 1536 + 4 * k, 4) == values[k]
  {
    SubSlice(f, 1536, bat, 4 * k, 4);
  }

  lemma BatValuesFit(size: nat)
    requires size <= MAX_SIZE
    ensures forall i :: 0 <= i < Entries(size) ==> BatValues(Entries(size), Entries(size))[i] < 0xFFFF_FFFF
  {
    assert Entries(size) <= MAX_ENTRIES;
  }

  lemma BatEntryOfSize(f: seq<byte>, size: nat, bat: seq<byte>, k: nat)
    requires size <= MAX_SIZE && k < Entries(size) && bat == PackedBat(BatValues(Entries(size), Entries(size)))
    requires 1536 + |bat| <= |f| && f[1536..1536 + |bat|] == bat
    ensures |f| >= 1536 + 4 * k + 4 && NumberAt(f, 1536 + 4 * k, 4) == BlockSector(Entries(size), k) < 0xFFFF_FFFF
  {
    BatValuesFit(size);
    BatEntryAt(BatValues(Entries(size), Entries(size)), k);
    BatEntryInFile(f, bat, BatValues(Entries(size), Entries(size)), k);
  }

  /** A block with a full bitmap is read straight from its data part. */
  lemma ReadFullBlock(f: seq<byte>, entry: nat, block: seq<byte>, j: nat)
    requires entry < 0xFFFF_FFFF && j < 4096 && BlockAt(f, entry, block)
    ensures ReadInBlock(f, entry, 4096, j) == Some(block[j * 512..j * 512 + 512])
  {
    assert f[entry * 512..][j / 8] == f[entry * 512..entry * 512 + 512][j / 8] == 0xFF;
    FullByteBit(j % 8);
    var at := (entry + 1 + j) * 512;
    assert Divro(Divro(4096, 8), 512) == 1;
    SubSlice(f, entry * 512 + 512, block, j * 512, 512);
    assert at == entry * 512 + 512 + j * 512;
  }

  /** The sector `s` of a disk whose BAT entry leads to `block`. */
  lemma SectorOfBlock(f: seq<byte>, g: Geometry, s: nat, k: nat, entry: nat, block: seq<byte>)
    requires g.table == 1536 && g.blockSize == 2097152 && k == s / 4096 < g.entries && |f| >= 1536 + 4 * k + 4
    requires NumberAt(f, 1536 + 4 * k, 4) == entry < 0xFFFF_FFFF && BlockAt(f, entry, block)
    ensures ReadSector(f, g, s) == Some(block[s % 4096 * 512..s % 4096 * 512 + 512])
  {
    var perBlock := g.blockSize / 512;
    assert perBlock == 4096;
    assert s / perBlock == k && s % perBlock == s % 4096;
    ReadFullBlock(f, entry, block, s % 4096);
  }

  /** READ BACK: every sector of every block, located only through the bytes of
      the file, holds the input, and zeros after its end. */
  lemma ImageSector(f: seq<byte>, job: Job, g: Geometry, s: nat)
    requires Convertible(job) && Holds(f, job) && s < N(job) * 4096
    requires g == Geometry(|job.input|, 1536, N(job), BLOCK_SIZE)
    ensures ReadSector(f, g, s) == Some(Padded(job.input)[s * 512..s * 512 + 512])
  {
    var k := s / 4096;
    BatEntryOfSize(f, |job.input|, PackedBat(BatValues(N(job), N(job))), k);
    SectorOfBlock(f, g, s, k, BlockSector(N(job), k), BlockOf(job.input, k));
    SliceOfBlock(job.input, s);
  }

  lemma SliceOfBlock(input: seq<byte>, s: nat)
    requires s < Entries(|input|) * 4096
    ensures BlockOf(input, s / 4096)[s % 4096 * 512..s % 4096 * 512 + 512] == Padded(input)[s * 512..s * 512 + 512]
  {
    assert s / 4096 * 2097152 + s % 4096 * 512 == s * 512;
  }

  lemma {:induction false} SectorsOf(read: nat -> Option<seq<byte>>, disk: seq<byte>, count: nat)
    requires count * 512 <= |disk|
    requires forall s :: 0 <= s < count ==> read(s) == Some(disk[s * 512..s * 512 + 512])
    ensures ReadSectors(read, count) == Some(disk[..count * 512])
  {
    if count > 0 {
      SectorsOf(read, disk, count - 1);
      assert disk[..(count - 1) * 512] + disk[(count - 1) * 512..(count - 1) * 512 + 512] == disk[..count * 512];
    }
  }

  lemma ImageSectors(f: seq<byte>, job: Job, g: Geometry, count: nat)
    requires Convertible(job) && Holds(f, job) && count <= N(job) * 4096
    requires g == Geometry(|job.input|, 1536, N(job), BLOCK_SIZE)
    ensures ReadSectors(SectorReader(f, g), count) == Some(Padded(job.input)[..count * 512])
  {
    forall s | 0 <= s < count
      ensures SectorReader(f, g)(s) == Some(Padded(job.input)[s * 512..s * 512 + 512])
    {
      ImageSector(f, job, g, s);
    }
    SectorsOf(SectorReader(f, g), Padded(job.input), count);
  }

  lemma TrimPadded(input: seq<byte>, count: nat)
    requires |input| <= count * 512 <= |Padded(input)|
    ensures Trim(Some(Padded(input)[..count * 512]), |input|) == Some(input)
  {
    assert Padded(input)[..count * 512][..|input|] == input;
  }

  /** ROUND TRIP: a reader of the format gets back exactly the raw input. */
  lemma RoundTrip(f: seq<byte>, job: Job)
    requires Convertible(job) && IsImage(f, job)
    ensures ReadDisk(f) == Some(job.input)
  {
    var count := Divro(|job.input|, 512);
    ImageHolds(f, job);
    ImageGeometry(f, job);
    ImageSectors(f, job, Geometry(|job.input|, 1536, N(job), BLOCK_SIZE), count);
    TrimPadded(job.input, count);
  }

  /** The file describes itself: both footers agree and are valid. */
  lemma SelfDescribing(f: seq<byte>, job: Job)
    requires Convertible(job) && IsImage(f, job)
    ensures |f| >= 1536 && f[|f| - 512..] == f[..512]
    ensures ValidFooter(f[..512]) && ValidDynamicHeader(f[512..1536])
  {
    ImageHolds(f, job);
    FooterReads(job);
    DynamicHeaderReads(job);
  }

  /** Where the bitmap and its header stand. */
  predicate HoldsBatmap(f: seq<byte>, n: nat, hdr: seq<byte>, bits: seq<byte>) {
    var at, to := (3 + BatSectors(n)) * 512, BatmapOffset(n);
    at + |hdr| <= |f| && f[at..at + |hdr|] == hdr && to + |bits| <= |f| && f[to..to + |bits|] == bits
  }

  lemma CanvasBatmap(f: seq<byte>, l: Pieces)
    requires Sized(l) && Canvas(f, Plan(l))
    ensures HoldsBatmap(f, l.n, l.batmapHdr, l.batmap)
  {
    HeaderExtents(l);
    assert Placed(f, Plan(l)[3]) && Placed(f, Plan(l)[4]);
  }

  /** A reader's view of the bitmap: its header stands in the sector behind a BAT
      of `n` entries and gives place, size in sectors and checksum. */
  predicate BatmapValid(f: seq<byte>, n: nat) {
    var at, size := (3 + BatSectors(n)) * 512, Divro(n, 8);
    && at + 28 <= |f| && f[at..at + 8] == BATMAP_COOKIE
    && var to := NumberAt(f, at + 8, 8);
    && size <= NumberAt(f, at + 16, 4) * 512 && to + size <= |f|
    && NumberAt(f, at + 24, 4) == Checksum(f[to..to + size])
  }

  lemma HeaderInFile(f: seq<byte>, at: nat, hdr: seq<byte>)
    requires |hdr| == 28 && at + 28 <= |f| && f[at..at + 28] == hdr
    ensures f[at..at + 8] == hdr[..8] && NumberAt(f, at + 8, 8) == NumberAt(hdr, 8, 8)
    ensures NumberAt(f, at + 16, 4) == NumberAt(hdr, 16, 4) && NumberAt(f, at + 24, 4) == NumberAt(hdr, 24, 4)
  {
    SubSlice(f, at, hdr, 0, 8);
    SubSlice(f, at, hdr, 8, 8);
    SubSlice(f, at, hdr, 16, 4);
    SubSlice(f, at, hdr, 24, 4);
  }

  /** What the bitmap's header says about bitmap `bits` of `n` entries. */
  predicate Describes(hdr: seq<byte>, n: nat, bits: seq<byte>) {
    && |hdr| == 28 && hdr[..8] == BATMAP_COOKIE && NumberAt(hdr, 8, 8) == BatmapOffset(n)
    && NumberAt(hdr, 16, 4) == BatmapSectors(n) && NumberAt(hdr, 24, 4) == Checksum(bits)
  }

  lemma DescribedReads(f: seq<byte>, n: nat, hdr: seq<byte>, bits: seq<byte>)
    requires HoldsBatmap(f, n, hdr, bits) && Describes(hdr, n, bits) && |bits| == Divro(n, 8)
    ensures BatmapValid(f, n) && NumberAt(f, (3 + BatSectors(n)) * 512 + 8, 8) == BatmapOffset(n)
  {
    HeaderInFile(f, (3 + BatSectors(n)) * 512, hdr);
  }

  /** Bit `j` of the bitmap, found through its header. */
  predicate BitFound(f: seq<byte>, n: nat, j: nat)
    requires BatmapValid(f, n) && j < 8 * Divro(n, 8)
  {
    var to := NumberAt(f, (3 + BatSectors(n)) * 512 + 8, 8);
    BitSet(f[to..to + Divro(n, 8)], j)
  }

  lemma HeldBit(f: seq<byte>, n: nat, hdr: seq<byte>, j: nat)
    requires HoldsBatmap(f, n, hdr, Batmap(n)) && Describes(hdr, n, Batmap(n)) && j < 8 * Divro(n, 8)
    ensures BatmapValid(f, n) && (BitFound(f, n, j) <==> j < n)
  {
    DescribedReads(f, n, hdr, Batmap(n));
    BatmapBits(n, j);
  }

  /** The bitmap of the BAT is valid, and of the bits found through its header
      exactly those of existing entries are set. */
  lemma BatmapReads(f: seq<byte>, job: Job, j: nat)
    requires Convertible(job) && IsImage(f, job) && j < 8 * Divro(N(job), 8)
    ensures BatmapValid(f, N(job)) && (BitFound(f, N(job), j) <==> j < N(job))
  {
    CanvasBatmap(f, PiecesOf(job));
    BatmapHeaderReads(job);
    HeldBit(f, N(job), BatmapHeader(job), j);
  }

  // ----- Every conversion -----

  /** What an empty input leaves has no footer at its end. */
  lemma UnreadableWithoutFooter(front: seq<byte>, dynamic: seq<byte>, back: seq<byte>)
    requires |front| == 512 && |dynamic| == 1024 && |back| == 28 && dynamic[540] == 0
    ensures ReadDisk(front + dynamic + back) == None
  {
    var f := front + dynamic + back;
    var last := f[|f| - 512..];
    assert last[0] == f[1052] == dynamic[540];
    assert FOOTER_COOKIE[0] == 99 && last[..8][0] == last[0];
  }

  lemma EmptyInputUnreadable(f: seq<byte>, job: Job)
    requires Small(job) && f == Footer(job) + DynamicHeader(job) + BatmapHeader(job)
    ensures ReadDisk(f) == None
  {
    DynamicFields(job, 540);
    UnreadableWithoutFooter(Footer(job), DynamicHeader(job), BatmapHeader(job));
  }

  lemma NothingUnreadable(f: seq<byte>)
    requires |f| < 512
    ensures ReadDisk(f) == None
  {
  }

  /** The whole disk as the reader sees it, for each outcome of a conversion. */
  lemma OutcomeReads(outcome: Outcome, f: seq<byte>, job: Job)
    requires Leaves(outcome, f, job)
    ensures outcome.Converted? ==> ReadDisk(f) == Some(job.input)
    ensures !outcome.Converted? ==> ReadDisk(f) == None
  {
    if outcome.Converted? {
      RoundTrip(f, job);
    } else if outcome.PackError? {
      NothingUnreadable(f);
    } else {
      EmptyInputUnreadable(f, job);
    }
  }

  /** What a conversion leaves reads back as its input exactly for the sizes it
      supports. */
  lemma ReadsBackExactly(outcome: Outcome, f: seq<byte>, job: Job)
    requires Leaves(outcome, f, job)
    ensures ReadDisk(f) == Some(job.input) <==> 0 < |job.input| <= MAX_SIZE
  {
    OutcomeReads(outcome, f, job);
  }
}
