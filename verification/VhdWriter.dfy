/** do_vhd_convert: the sequence of seeks and writes that turns a raw image into
    a dynamic VHD, proved to leave exactly the layout of the format. */
module VhdWriter {
  import opened Basics
  import opened Bytes
  import opened Struct
  import opened VhdFormat
  import opened VhdLayout

  // ----- Files -----

  class OutFile {
    var content: seq<byte>
    var pos: nat

    constructor ()
      ensures content == [] && pos == 0
    {
      content, pos := [], 0;
    }

    method Seek(to: nat)
      modifies this
      ensures pos == to && content == old(content)
    {
      pos := to;
    }

    method Write(data: seq<byte>)
      modifies this
      ensures content == WriteAt(old(content), old(pos), data)
      ensures pos == old(pos) + |data|
    {
      content := WriteAt(content, pos, data);
      pos := pos + |data|;
    }
  }

  class InFile {
    const content: seq<byte>
    var pos: nat

    constructor (content: seq<byte>)
      ensures this.content == content && pos == 0
    {
      this.content, pos := content, 0;
    }

    method Seek(to: nat)
      modifies this
      ensures pos == to
    {
      pos := to;
    }

    method SeekEnd()
      modifies this
      ensures pos == |content|
    {
      pos := |content|;
    }

    method Read(n: nat) returns (data: seq<byte>)
      modifies this
      ensures data == ReadFrom(content, old(pos), n)
      ensures pos == old(pos) + |data|
    {
      data := ReadFrom(content, pos, n);
      pos := pos + |data|;
    }
  }

  /** Up to `n` bytes from `pos`, fewer only at the end of the file. */
  function ReadFrom(content: seq<byte>, pos: nat, n: nat): (data: seq<byte>)
    ensures |data| <= n && (pos <= |content| ==> pos + |data| <= |content|)
    ensures pos + n <= |content| ==> |data| == n
  {
    if pos >= |content| then [] else if pos + n <= |content| then content[pos..pos + n] else content[pos..]
  }

  // ----- The pieces of one conversion -----

  /** What is converted: the raw input and the footer's unique id. */
  datatype Job = Job(input: seq<byte>, uuid: seq<byte>)

  function N(job: Job): nat { Entries(|job.input|) }

  /** Small enough for 32-bit BAT entries. */
  predicate Small(job: Job) { |job.input| <= MAX_SIZE }

  predicate Convertible(job: Job) { Small(job) && |job.input| > 0 }

  function FooterWith(job: Job, checksum: nat): (b: seq<byte>)
    requires Small(job) && checksum < U32
    ensures |b| == 512
  {
    FooterValsFit(|job.input|, job.uuid, checksum);
    HeaderOffsets();
    Pack(HEADER_FMT, FooterVals(|job.input|, job.uuid, checksum))
  }

  function Footer(job: Job): (b: seq<byte>)
    requires Small(job)
    ensures |b| == 512
  {
    FooterWith(job, Checksum(FooterWith(job, 0)))
  }

  function DynamicWith(job: Job, checksum: nat): (b: seq<byte>)
    requires Small(job) && checksum < U32
    ensures |b| == 1024
  {
    DynamicValsFit(N(job), checksum);
    DynamicOffsets();
    Pack(DYNAMIC_FMT, DynamicVals(N(job), checksum))
  }

  function DynamicHeader(job: Job): (b: seq<byte>)
    requires Small(job)
    ensures |b| == 1024
  {
    DynamicWith(job, Checksum(DynamicWith(job, 0)))
  }

  function BatmapHeader(job: Job): (b: seq<byte>)
    requires Small(job)
    ensures |b| == 28
  {
    BatmapValsFit(N(job));
    Pack(BAT_HDR_FMT, BatmapVals(N(job)))
  }

  function PiecesOf(job: Job): (l: Pieces)
    requires Small(job)
    ensures Convertible(job) ==> Sized(l)
    ensures l.n == N(job) && l.input == job.input
  {
    Pieces(N(job), Footer(job), DynamicHeader(job), PackedBat(BatValues(N(job), N(job))), BatmapHeader(job),
           Batmap(N(job)), job.input)
  }

  /** A complete dynamic VHD image of the job's input. */
  ghost predicate IsImage(f: seq<byte>, job: Job)
    requires Convertible(job)
  {
    Canvas(f, Plan(PiecesOf(job)))
  }

  // ----- The converter -----

  datatype Outcome =
    | Converted
    | PackError    // struct.error: a BAT entry does not fit 32 bits
    | NoBlockStart // the loop variable of an empty BAT is read after the loop

  lemma PackEntry(value: nat)
    ensures StructPack([Unsigned(4)], [Num(value)]) == if value < U32 then Some(BigEndian(value, 4)) else None
  {
    Pow256Values();
    var fmt, vals := [Unsigned(4)], [Num(value)];
    assert Fits(fmt, vals) <==> FieldFits(fmt[0], vals[0]);
    if Fits(fmt, vals) {
      FieldAt(fmt, vals, 0);
      assert Offset(fmt, 1) == 4 && Pack(fmt, vals)[0..4] == BigEndian(value, 4);
      assert Pack(fmt, vals) == BigEndian(value, 4);
    }
    assert FieldFits(fmt[0], vals[0]) <==> value < U32;
    assert StructPack(fmt, vals) == if value < U32 then Some(BigEndian(value, 4)) else None;
  }

  /** What each outcome leaves in a file that was empty: nothing, three headers
      without a trailing footer, or the image. The input size alone decides. */
  ghost predicate Leaves(outcome: Outcome, f: seq<byte>, job: Job) {
    match outcome
    case PackError => |job.input| > MAX_SIZE && f == []
    case NoBlockStart => job.input == [] && f == Footer(job) + DynamicHeader(job) + BatmapHeader(job)
    case Converted => 0 < |job.input| <= MAX_SIZE && IsImage(f, job)
  }

  lemma PackedNext(values: seq<nat>, k: nat)
    requires k < |values|
    ensures PackedBat(values[..k + 1]) == PackedBat(values[..k]) + BigEndian(values[k], 4)
  {
    assert values[..k + 1][..k] == values[..k];
  }

  method PackNumber(value: nat) returns (entry: Option<seq<byte>>)
    ensures entry == if value < U32 then Some(BigEndian(value, 4)) else None
  {
    PackEntry(value);
    entry := StructPack([Unsigned(4)], [Num(value)]);
  }

  method PackBat(values: seq<nat>) returns (bat: Option<seq<byte>>)
    ensures bat == if forall k :: 0 <= k < |values| ==> values[k] < U32 then Some(PackedBat(values)) else None
  {
    var bytes := [];
    for k := 0 to |values|
      invariant forall j :: 0 <= j < k ==> values[j] < U32
      invariant bytes == PackedBat(values[..k])
    {
      var entry := PackNumber(values[k]);
      if entry.None? {
        return None;
      }
      bytes := bytes + entry.value;
      PackedNext(values, k);
    }
    assert values[..|values|] == values;
    bat := Some(bytes);
  }

  method BuildBatmap(n: nat) returns (batmap: seq<byte>)
    ensures batmap == Batmap(n)
  {
    batmap := [];
    for i := 0 to n / 8
      invariant batmap == seq(i, _ => 0xFF)
    {
      batmap := batmap + [0xFF];
    }
    var extraBits := n % 8;
    if extraBits != 0 {
      batmap := batmap + [HighBits(8 - extraBits)];
    }
  }

  method MakeFooter(job: Job) returns (final: seq<byte>)
    requires Small(job)
    ensures final == Footer(job)
  {
    var reserved := ZeroString(427);
    var vals := FooterVals(|job.input|, job.uuid, 0)[17 := Str(reserved)];
    assert vals == FooterVals(|job.input|, job.uuid, 0);
    FooterValsFit(|job.input|, job.uuid, 0);
    HeaderOffsets();
    var header := Pack(HEADER_FMT, vals);
    var checksum := VhdChecksum(header);
    vals := vals[14 := Num(checksum)];
    assert vals == FooterVals(|job.input|, job.uuid, checksum);
    FooterValsFit(|job.input|, job.uuid, checksum);
    final := Pack(HEADER_FMT, vals);
  }

  method MakeDynamicHeader(job: Job) returns (final: seq<byte>)
    requires Small(job)
    ensures final == DynamicHeader(job)
  {
    var parentUuid := ZeroString(16);
    var parentName := ZeroString(512);
    var parentLocents := ZeroString(192);
    var reserved3 := ZeroString(256);
    var vals := [Str(DYNAMIC_COOKIE), Num(0xFFFF_FFFF_FFFF_FFFF), Num(1536), Num(0x1_0000), Num(N(job)),
      Num(BLOCK_SIZE), Num(0), Str(parentUuid), Num(0), Num(0), Str(parentName), Str(parentLocents), Str(reserved3)];
    DynamicValsFit(N(job), 0);
    assert vals == DynamicVals(N(job), 0);
    DynamicOffsets();
    var header := Pack(DYNAMIC_FMT, vals);
    var checksum := VhdChecksum(header);
    vals := vals[6 := Num(checksum)];
    assert vals == DynamicVals(N(job), checksum);
    DynamicValsFit(N(job), checksum);
    final := Pack(DYNAMIC_FMT, vals);
  }

  method MakeBatmapHeader(job: Job, batmap: seq<byte>) returns (hdr: seq<byte>)
    requires Small(job) && batmap == Batmap(N(job))
    ensures hdr == BatmapHeader(job)
  {
    BatmapValsFit(N(job));
    var checksum := VhdChecksum(batmap);
    hdr := Pack(BAT_HDR_FMT,
      [Str(BATMAP_COOKIE), Num(BatmapOffset(N(job))), Num(BatmapSectors(N(job))), Num(0x1_0002), Num(checksum)]);
  }

  /** Writing extent `i` where it belongs extends the canvas by it. */
  lemma NextWrite(f: seq<byte>, es: seq<Extent>, i: nat)
    requires Ordered(es) && i < |es| && Canvas(f, es[..i])
    ensures Canvas(WriteAt(f, es[i].at, es[i].data), es[..i + 1])
  {
    assert es[..i + 1] == es[..i] + [es[i]];
    ExtendCanvas(f, es[..i], es[i]);
  }

  lemma LastWrite(f: seq<byte>, es: seq<Extent>)
    requires Ordered(es) && es != [] && Canvas(f, es[..|es| - 1])
    ensures var e := es[|es| - 1]; Canvas(WriteAt(f, e.at, e.data), es)
  {
    NextWrite(f, es, |es| - 1);
    assert es[..|es|] == es;
  }

  /** The file after the first three writes. */
  function StartBytes(header: seq<byte>, dynHeader: seq<byte>, bat: seq<byte>): seq<byte> {
    WriteAt(WriteAt(WriteAt([], 0, header), |header|, dynHeader), |header| + |dynHeader|, bat)
  }

  /** The file after the writes that precede the first block. */
  function HeaderBytes(n: nat, header: seq<byte>, dynHeader: seq<byte>, bat: seq<byte>, batmapHdr: seq<byte>,
                       batmap: seq<byte>): seq<byte>
  {
    var c3 := StartBytes(header, dynHeader, bat);
    var c4 := WriteAt(c3, (3 + BatSectors(n)) * 512, batmapHdr);
    WriteAt(c4, BatmapOffset(n), batmap)
  }

  /** With at least one block they draw the first five extents. */
  lemma HeaderCanvas(l: Pieces, es: seq<Extent>)
    requires Sized(l) && Ordered(es) && |es| > 5
    requires es[0] == Extent(0, l.footer) && es[1] == Extent(512, l.dynamic) && es[2] == Extent(1536, l.bat)
    requires es[3] == Extent((3 + BatSectors(l.n)) * 512, l.batmapHdr) && es[4] == Extent(BatmapOffset(l.n), l.batmap)
    ensures Canvas(HeaderBytes(l.n, l.footer, l.dynamic, l.bat, l.batmapHdr, l.batmap), es[..5])
  {
    NextWrite([], es, 0);
    var c1 := WriteAt([], 0, l.footer);
    NextWrite(c1, es, 1);
    var c2 := WriteAt(c1, 512, l.dynamic);
    NextWrite(c2, es, 2);
    var c3 := WriteAt(c2, 1536, l.bat);
    NextWrite(c3, es, 3);
    var c4 := WriteAt(c3, (3 + BatSectors(l.n)) * 512, l.batmapHdr);
    NextWrite(c4, es, 4);
  }

  /** With no block the BAT and its bitmap are empty and three headers remain. */
  lemma HeadersAlone(header: seq<byte>, dynHeader: seq<byte>, batmapHdr: seq<byte>)
    requires |header| == 512 && |dynHeader| == 1024 && |batmapHdr| == 28
    ensures HeaderBytes(0, header, dynHeader, [], batmapHdr, []) == header + dynHeader + batmapHdr
  {
  }

  method WriteStart(l: Pieces, outfile: OutFile)
    requires outfile.content == [] && outfile.pos == 0
    modifies outfile
    ensures outfile.content == StartBytes(l.footer, l.dynamic, l.bat)
  {
    outfile.Write(l.footer);
    outfile.Write(l.dynamic);
    outfile.Write(l.bat);
  }

  method WriteHeaders(l: Pieces, outfile: OutFile)
    requires outfile.content == [] && outfile.pos == 0
    modifies outfile
    ensures outfile.content == HeaderBytes(l.n, l.footer, l.dynamic, l.bat, l.batmapHdr, l.batmap)
  {
    WriteStart(l, outfile);
    outfile.Seek((3 + BatSectors(l.n)) * 512);
    outfile.Write(l.batmapHdr);
    outfile.Seek(BatmapOffset(l.n));
    outfile.Write(l.batmap);
  }

  /** Extents 5 + 2k and 6 + 2k hold the bitmap and the data of block `k`. */
  predicate BlockPair(es: seq<Extent>, sector: nat, input: seq<byte>, k: nat, pos: nat) {
    && 6 + 2 * k < |es|
    && es[5 + 2 * k] == Extent(sector * 512, FullBitmap())
    && es[6 + 2 * k] == Extent((sector + BITMAP_SECTORS) * 512, ReadFrom(input, pos, BLOCK_SIZE))
  }

  /** The loop over the blocks. */
  method WriteBlocks(batValues: seq<nat>, infile: InFile, outfile: OutFile, ghost es: seq<Extent>)
    requires infile.pos == 0 && Ordered(es) && |es| >= 5 + 2 * |batValues|
    requires |batValues| == 0 || (|batValues| - 1) * 2097152 < |infile.content|
    requires forall k :: 0 <= k < |batValues| ==> BlockPair(es, batValues[k], infile.content, k, k * 2097152)
    requires Canvas(outfile.content, es[..5])
    modifies infile, outfile
    ensures Canvas(outfile.content, es[..5 + 2 * |batValues|])
  {
    for k := 0 to |batValues|
      invariant k < |batValues| ==> infile.pos == k * 2097152
      invariant Canvas(outfile.content, es[..5 + 2 * k])
    {
      assert BlockPair(es, batValues[k], infile.content, k, k * 2097152);
      WriteBlock(batValues[k], infile, outfile, es, k);
      assert 5 + 2 * (k + 1) == 7 + 2 * k;
    }
  }

  method WriteBlock(blockStart: nat, infile: InFile, outfile: OutFile, ghost es: seq<Extent>, ghost k: nat)
    requires Ordered(es) && BlockPair(es, blockStart, infile.content, k, infile.pos)
    requires Canvas(outfile.content, es[..5 + 2 * k])
    modifies infile, outfile
    ensures Canvas(outfile.content, es[..7 + 2 * k])
    ensures old(infile.pos) + BLOCK_SIZE <= |infile.content| ==> infile.pos == old(infile.pos) + BLOCK_SIZE
  {
    NextWrite(outfile.content, es, 5 + 2 * k);
    outfile.Seek(blockStart * 512);
    outfile.Write(FullBitmap());
    NextWrite(outfile.content, es, 6 + 2 * k);
    outfile.Seek((blockStart + BITMAP_SECTORS) * 512);
    var data := infile.Read(BLOCK_SIZE);
    outfile.Write(data);
  }

  lemma BlockExtents(l: Pieces, k: nat)
    requires Sized(l) && k < l.n
    ensures BlockPair(Plan(l), BlockSector(l.n, k), l.input, k, k * 2097152)
  {
    assert (5 + 2 * k - 5) / 2 == k && (6 + 2 * k - 5) / 2 == k;
  }

  lemma HeaderExtents(l: Pieces)
    requires Sized(l)
    ensures var es := Plan(l);
      && |es| > 5 && es[0] == Extent(0, l.footer) && es[1] == Extent(512, l.dynamic) && es[2] == Extent(1536, l.bat)
      && es[3] == Extent((3 + BatSectors(l.n)) * 512, l.batmapHdr) && es[4] == Extent(BatmapOffset(l.n), l.batmap)
    ensures Plan(l)[5 + 2 * l.n] == Extent((BlockSector(l.n, l.n - 1) + BITMAP_SECTORS + BLOCK_SECTORS) * 512, l.footer)
    ensures |Plan(l)| == 6 + 2 * l.n
  {
  }

  lemma PlannedExtents(l: Pieces)
    requires Sized(l)
    ensures forall k :: 0 <= k < l.n ==> BlockPair(Plan(l), BatValues(l.n, l.n)[k], l.input, k, k * 2097152)
  {
    forall k | 0 <= k < l.n
      ensures BlockPair(Plan(l), BatValues(l.n, l.n)[k], l.input, k, k * 2097152)
    {
      BlockExtents(l, k);
    }
  }

  /** Blocks and trailing footer. */
  method WriteBody(batValues: seq<nat>, finalHeader: seq<byte>, infile: InFile, outfile: OutFile, ghost es: seq<Extent>)
    requires infile.pos == 0 && Ordered(es) && |es| == 6 + 2 * |batValues| && |batValues| > 0
    requires (|batValues| - 1) * 2097152 < |infile.content|
    requires forall k :: 0 <= k < |batValues| ==> BlockPair(es, batValues[k], infile.content, k, k * 2097152)
    requires es[|es| - 1]
      == Extent((batValues[|batValues| - 1] + BITMAP_SECTORS + BLOCK_SECTORS) * 512, finalHeader)
    requires Canvas(outfile.content, es[..5])
    modifies infile, outfile
    ensures Canvas(outfile.content, es)
  {
    WriteBlocks(batValues, infile, outfile, es);
    LastWrite(outfile.content, es);
    var blockStart := batValues[|batValues| - 1];
    outfile.Seek((blockStart + BITMAP_SECTORS + BLOCK_SECTORS) * 512);
    outfile.Write(finalHeader);
  }

  /** What that means for the conversion as a whole. */
  lemma LeavesFor(outcome: Outcome, f: seq<byte>, job: Job, l: Pieces)
    requires Small(job) && l == PiecesOf(job)
    requires outcome == if l.n == 0 then NoBlockStart else Converted
    requires l.n > 0 ==> Canvas(f, Plan(l))
    requires l.n == 0 ==> f == l.footer + l.dynamic + l.batmapHdr
    ensures Leaves(outcome, f, job)
  {
    assert l.n == 0 <==> job.input == [];
  }

  /** All writes: the blocks follow the headers unless the BAT is empty. */
  method WriteAll(l: Pieces, batValues: seq<nat>, infile: InFile, outfile: OutFile) returns (outcome: Outcome)
    requires outfile.content == [] && outfile.pos == 0 && infile.pos == 0 && infile.content == l.input
    requires |l.footer| == 512 && |l.dynamic| == 1024 && |l.batmapHdr| == 28
    requires if l.n == 0 then l.bat == [] && l.batmap == [] else Sized(l)
    requires batValues == BatValues(l.n, l.n)
    modifies infile, outfile
    ensures outcome == if l.n == 0 then NoBlockStart else Converted
    ensures l.n > 0 ==> Canvas(outfile.content, Plan(l))
    ensures l.n == 0 ==> outfile.content == l.footer + l.dynamic + l.batmapHdr
  {
    WriteHeaders(l, outfile);
    if batValues == [] {
      HeadersAlone(l.footer, l.dynamic, l.batmapHdr);
      return NoBlockStart;
    }
    HeaderExtents(l);
    PlanOrdered(l);
    HeaderCanvas(l, Plan(l));
    PlannedExtents(l);
    WriteBody(batValues, l.footer, infile, outfile, Plan(l));
    outcome := Converted;
  }

  /** The BAT values and their packed form. */
  method BuildBat(insize: nat) returns (batValues: seq<nat>, bat: Option<seq<byte>>)
    ensures batValues == BatValues(Entries(insize), Entries(insize))
    ensures bat == if insize <= MAX_SIZE then Some(PackedBat(batValues)) else None
  {
    var batEntries := Divro(insize, 2097152);
    var currentBlockSector := FirstBlock(batEntries);
    batValues := [];
    for i := 0 to batEntries
      invariant currentBlockSector == BlockSector(batEntries, i)
      invariant batValues == BatValues(batEntries, i)
    {
      batValues := batValues + [currentBlockSector];
      currentBlockSector := currentBlockSector + TOTAL_BLOCK_SECTORS;
    }
    BatFitsExactly(insize);
    assert BatFits(batEntries) <==> forall k :: 0 <= k < |batValues| ==> batValues[k] < U32;
    bat := PackBat(batValues);
  }

  method MakePieces(job: Job, bat: seq<byte>) returns (l: Pieces)
    requires Small(job) && bat == PackedBat(BatValues(N(job), N(job)))
    ensures l == PiecesOf(job)
    ensures |l.footer| == 512 && |l.dynamic| == 1024 && |l.batmapHdr| == 28
    ensures if l.n == 0 then l.bat == [] && l.batmap == [] else Sized(l)
  {
    var batmap := BuildBatmap(N(job));
    var batmapHdr := MakeBatmapHeader(job, batmap);
    var finalHeader := MakeFooter(job);
    var finalDynHeader := MakeDynamicHeader(job);
    l := Pieces(N(job), finalHeader, finalDynHeader, bat, batmapHdr, batmap, job.input);
  }

  /** do_vhd_convert: a converted file is exactly the image of the input. */
  method DoVhdConvert(infile: InFile, outfile: OutFile, uuid: seq<byte>) returns (outcome: Outcome)
    requires outfile.content == [] && outfile.pos == 0
    modifies infile, outfile
    ensures Leaves(outcome, outfile.content, Job(infile.content, uuid))
  {
    infile.SeekEnd();
    var insize := infile.pos;
    infile.Seek(0);
    var batValues, bat := BuildBat(insize);
    if bat.None? {
      return PackError;
    }
    outcome := ConvertSmall(Job(infile.content, uuid), batValues, bat.value, infile, outfile);
  }

  method ConvertSmall(job: Job, batValues: seq<nat>, bat: seq<byte>, infile: InFile, outfile: OutFile)
    returns (outcome: Outcome)
    requires Small(job) && batValues == BatValues(N(job), N(job)) && bat == PackedBat(batValues)
    requires infile.pos == 0 && infile.content == job.input && outfile.content == [] && outfile.pos == 0
    modifies infile, outfile
    ensures Leaves(outcome, outfile.content, job)
  {
    var l := MakePieces(job, bat);
    outcome := WriteAll(l, batValues, infile, outfile);
    LeavesFor(outcome, outfile.content, job, l);
  }
}
