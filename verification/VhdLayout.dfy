/** Where each piece of the VHD is placed: a canvas of disjoint extents on a zero
    background, independent of what the pieces contain. */
module VhdLayout {
  import opened Bytes
  import opened VhdFormat

  /** A write at `at`: a gap past the end is zero-filled, and writing nothing
      does not extend the file. */
  function WriteAt(f: seq<byte>, at: nat, data: seq<byte>): seq<byte> {
    if data == [] then f
    else if at >= |f| then f + Zeros(at - |f|) + data
    else if at + |data| >= |f| then f[..at] + data
    else f[..at] + data + f[at + |data|..]
  }

  datatype Extent = Extent(at: nat, data: seq<byte>) {
    function End(): nat { at + |data| }
  }

  /** Non-empty extents in file order, without overlap. */
  predicate Ordered(es: seq<Extent>) {
    && (forall i :: 0 <= i < |es| ==> es[i].data != [])
    && (forall i, j :: 0 <= i < j < |es| ==> es[i].End() <= es[j].at)
  }

  predicate Covered(es: seq<Extent>, p: nat) {
    exists i :: 0 <= i < |es| && es[i].at <= p < es[i].End()
  }

  predicate Placed(f: seq<byte>, e: Extent) {
    e.End() <= |f| && f[e.at..e.End()] == e.data
  }

  /** All extents are in place, every other byte is zero, and the file ends with
      the last of them. */
  ghost predicate Canvas(f: seq<byte>, es: seq<Extent>) {
    && |f| == (if es == [] then 0 else es[|es| - 1].End())
    && (forall i :: 0 <= i < |es| ==> Placed(f, es[i]))
    && (forall p :: 0 <= p < |f| && !Covered(es, p) ==> f[p] == 0)
  }

  lemma CoveredBy(es: seq<Extent>, i: nat, p: nat)
    requires i < |es| && es[i].at <= p < es[i].End()
    ensures Covered(es, p)
  {
  }

  lemma CoveredStill(es: seq<Extent>, e: Extent, p: nat)
    requires Covered(es, p)
    ensures Covered(es + [e], p)
  {
    var i :| 0 <= i < |es| && es[i].at <= p < es[i].End();
    CoveredBy(es + [e], i, p);
  }

  /** Writing the next extent extends the canvas. */
  lemma ExtendCanvas(f: seq<byte>, es: seq<Extent>, e: Extent)
    requires Ordered(es + [e]) && Canvas(f, es)
    ensures Canvas(WriteAt(f, e.at, e.data), es + [e])
  {
    var fs := es + [e];
    assert fs[|es|] == e;
    assert forall i :: 0 <= i < |es| ==> fs[i] == es[i];
    var g := WriteAt(f, e.at, e.data);
    assert g == f + Zeros(e.at - |f|) + e.data;
    forall j | 0 <= j < |fs|
      ensures Placed(g, fs[j])
    {
      if j < |es| {
        assert Placed(f, es[j]);
        assert g[fs[j].at..fs[j].End()] == f[fs[j].at..fs[j].End()];
      }
    }
    forall p | 0 <= p < |g|
      ensures Covered(fs, p) || g[p] == 0
    {
      if p >= e.at {
        CoveredBy(fs, |es|, p);
      } else if p < |f| && Covered(es, p) {
        CoveredStill(es, e, p);
      }
    }
  }

  /** A canvas is determined by its extents. */
  lemma CanvasUnique(f: seq<byte>, g: seq<byte>, es: seq<Extent>)
    requires Canvas(f, es) && Canvas(g, es)
    ensures f == g
  {
    forall p | 0 <= p < |f|
      ensures f[p] == g[p]
    {
      if Covered(es, p) {
        var i :| 0 <= i < |es| && es[i].at <= p < es[i].End();
        assert Placed(f, es[i]) && Placed(g, es[i]);
        assert f[p] == f[es[i].at..es[i].End()][p - es[i].at];
        assert g[p] == g[es[i].at..es[i].End()][p - es[i].at];
      }
    }
  }

  /** Between two consecutive extents a canvas holds zeros. */
  lemma GapIsZero(f: seq<byte>, es: seq<Extent>, i: nat, p: nat)
    requires Ordered(es) && Canvas(f, es) && i + 1 < |es|
    requires es[i].End() <= p < es[i + 1].at
    ensures p < |f| && f[p] == 0
  {
    assert Placed(f, es[i + 1]);
    forall j | 0 <= j < |es|
      ensures !(es[j].at <= p < es[j].End())
    {
      assert j < i ==> es[j].End() <= es[i].at;
      assert j > i + 1 ==> es[i + 1].End() <= es[j].at;
    }
    assert !Covered(es, p);
  }

  /** The pieces of an image with `n` blocks. */
  datatype Pieces = Pieces(
    n: nat, footer: seq<byte>, dynamic: seq<byte>, bat: seq<byte>, batmapHdr: seq<byte>, batmap: seq<byte>,
    input: seq<byte>)

  predicate Sized(l: Pieces) {
    && 0 < l.n && |l.footer| == 512 && |l.dynamic| == 1024 && |l.bat| == 4 * l.n
    && |l.batmapHdr| == 28 && |l.batmap| == Divro(l.n, 8)
    && 2097152 * (l.n - 1) < |l.input| <= 2097152 * l.n
  }

  /** The part of the input stored in block `k`. */
  function Chunk(l: Pieces, k: nat): (c: seq<byte>)
    requires Sized(l) && k < l.n
    ensures 0 < |c| <= BLOCK_SIZE
  {
    if k + 1 < l.n then l.input[k * 2097152..(k + 1) * 2097152] else l.input[k * 2097152..]
  }

  /** Footer copy, dynamic header, BAT, batmap header, batmap, then a sector
      bitmap and a data part per block, then the footer. */
  function Extents(l: Pieces): nat { 6 + 2 * l.n }

  /** The sector at which extent `i` starts. */
  function StartSector(n: nat, i: nat): nat
    requires n > 0 && i < 6 + 2 * n
  {
    if i == 0 then 0
    else if i == 1 then 1
    else if i == 2 then 3
    else if i == 3 then 3 + BatSectors(n)
    else if i == 4 then 3 + BatSectors(n) + 1
    else if i == 5 + 2 * n then BlockSector(n, n - 1) + BITMAP_SECTORS + BLOCK_SECTORS
    else if i % 2 == 1 then BlockSector(n, (i - 5) / 2)
    else BlockSector(n, (i - 5) / 2) + BITMAP_SECTORS
  }

  function ContentOf(l: Pieces, i: nat): seq<byte>
    requires Sized(l) && i < Extents(l)
  {
    if i == 0 then l.footer
    else if i == 1 then l.dynamic
    else if i == 2 then l.bat
    else if i == 3 then l.batmapHdr
    else if i == 4 then l.batmap
    else if i == 5 + 2 * l.n then l.footer
    else if i % 2 == 1 then FullBitmap()
    else Chunk(l, (i - 5) / 2)
  }

  /** Every extent starts on a sector. */
  function ExtentOf(l: Pieces, i: nat): Extent
    requires Sized(l) && i < Extents(l)
  {
    Extent(StartSector(l.n, i) * 512, ContentOf(l, i))
  }

  lemma HeaderSpace(n: nat)
    requires n > 0
    ensures 1536 + 4 * n <= (3 + BatSectors(n)) * 512
    ensures (3 + BatSectors(n) + 1) * 512 + Divro(n, 8) <= BlockSector(n, 0) * 512
    ensures Divro(n, 8) > 0
  {
  }

  lemma HeaderExtent(l: Pieces, i: nat)
    requires Sized(l) && i < 5
    ensures ExtentOf(l, i).data != [] && ExtentOf(l, i).End() <= ExtentOf(l, i + 1).at
  {
    HeaderSpace(l.n);
    assert StartSector(l.n, 5) == BlockSector(l.n, 0);
  }

  lemma BitmapExtentNext(l: Pieces, k: nat)
    requires Sized(l) && k < l.n
    ensures ExtentOf(l, 5 + 2 * k) == Extent(BlockSector(l.n, k) * 512, FullBitmap())
    ensures ExtentOf(l, 6 + 2 * k) == Extent((BlockSector(l.n, k) + BITMAP_SECTORS) * 512, Chunk(l, k))
    ensures ExtentOf(l, 5 + 2 * k).End() == ExtentOf(l, 6 + 2 * k).at
  {
    assert (5 + 2 * k - 5) / 2 == k && (6 + 2 * k - 5) / 2 == k;
  }

  lemma ChunkExtentNext(l: Pieces, k: nat)
    requires Sized(l) && k < l.n
    ensures ExtentOf(l, 6 + 2 * k).data != []
    ensures ExtentOf(l, 6 + 2 * k).at + BLOCK_SIZE <= ExtentOf(l, 7 + 2 * k).at
    ensures ExtentOf(l, 6 + 2 * k).End() <= ExtentOf(l, 7 + 2 * k).at
  {
    BitmapExtentNext(l, k);
    if k + 1 < l.n {
      BitmapExtentNext(l, k + 1);
      assert BlockSector(l.n, k + 1) == BlockSector(l.n, k) + TOTAL_BLOCK_SECTORS;
    }
  }

  /** Consecutive extents follow each other without overlap, and none is empty. */
  lemma NextExtent(l: Pieces, i: nat)
    requires Sized(l) && i < Extents(l)
    ensures ExtentOf(l, i).data != []
    ensures i + 1 < Extents(l) ==> ExtentOf(l, i).End() <= ExtentOf(l, i + 1).at
  {
    var k := (i - 5) / 2;
    if i < 5 {
      HeaderExtent(l, i);
    } else if i == 5 + 2 * l.n {
      assert ExtentOf(l, i).data == l.footer;
    } else if i == 5 + 2 * k {
      BitmapExtentNext(l, k);
    } else {
      ChunkExtentNext(l, k);
    }
  }

  function Plan(l: Pieces): (es: seq<Extent>)
    requires Sized(l)
    ensures |es| == Extents(l) && forall i :: 0 <= i < |es| ==> es[i] == ExtentOf(l, i)
  {
    seq(Extents(l), i requires 0 <= i < Extents(l) => ExtentOf(l, i))
  }

  lemma {:induction false} OrderedFromAdjacent(es: seq<Extent>, i: nat, j: nat)
    requires forall m :: 0 <= m < |es| - 1 ==> es[m].End() <= es[m + 1].at
    requires i < j < |es|
    ensures es[i].End() <= es[j].at
    decreases j
  {
    if i + 1 < j {
      OrderedFromAdjacent(es, i, j - 1);
      assert es[j - 1].End() <= es[j - 1 + 1].at;
    }
  }

  /** All extents are pairwise disjoint and in file order, and none is empty. */
  lemma PlanOrdered(l: Pieces)
    requires Sized(l)
    ensures Ordered(Plan(l))
  {
    var es := Plan(l);
    forall i | 0 <= i < |es|
      ensures es[i].data != [] && (i < |es| - 1 ==> es[i].End() <= es[i + 1].at)
    {
      NextExtent(l, i);
    }
    forall i, j | 0 <= i < j < |es|
      ensures es[i].End() <= es[j].at
    {
      OrderedFromAdjacent(es, i, j);
    }
  }

  // ----- What a canvas holds in block `k` -----

  /** The input followed by zeros up to the end of the last block. */
  function Padded(input: seq<byte>): (s: seq<byte>)
    ensures |s| == Entries(|input|) * 2097152
  {
    input + Zeros(Entries(|input|) * 2097152 - |input|)
  }

  /** The 2 MiB of virtual disk stored in block `k`. */
  function BlockOf(input: seq<byte>, k: nat): (b: seq<byte>)
    requires k < Entries(|input|)
    ensures |b| == BLOCK_SIZE
  {
    Padded(input)[k * 2097152..k * 2097152 + 2097152]
  }

  lemma ChunkPadded(l: Pieces, k: nat)
    requires Sized(l) && k < l.n
    ensures l.n == Entries(|l.input|)
    ensures BlockOf(l.input, k) == Chunk(l, k) + Zeros(BLOCK_SIZE - |Chunk(l, k)|)
  {
  }

  /** At `at` stand `data` and then zeros up to `size` bytes. */
  predicate Window(f: seq<byte>, at: nat, data: seq<byte>, size: nat)
    requires |data| <= size
  {
    at + size <= |f| && f[at..at + size] == data + Zeros(size - |data|)
  }

  /** From the start of an extent up to the next one a canvas holds the extent's
      bytes and then zeros. */
  lemma CanvasWindow(f: seq<byte>, es: seq<Extent>, i: nat, at: nat, data: seq<byte>, size: nat)
    requires Ordered(es) && Canvas(f, es) && i + 1 < |es| && es[i] == Extent(at, data)
    requires |data| <= size && at + size <= es[i + 1].at
    ensures Window(f, at, data, size)
  {
    assert Placed(f, es[i]) && Placed(f, es[i + 1]);
    var window, want := f[at..at + size], data + Zeros(size - |data|);
    forall o | 0 <= o < size
      ensures window[o] == want[o]
    {
      if o < |data| {
        assert f[at + o] == f[at..at + |data|][o];
      } else {
        GapIsZero(f, es, i, at + o);
      }
    }
  }

  /** A full bitmap and the bytes of `block` stand at sector `entry`. */
  predicate BlockAt(f: seq<byte>, entry: nat, block: seq<byte>) {
    && |block| == 2097152 && entry * 512 + 512 + 2097152 <= |f|
    && f[entry * 512..entry * 512 + 512] == FullBitmap()
    && f[entry * 512 + 512..entry * 512 + 512 + 2097152] == block
  }

  lemma CanvasBitmapAt(f: seq<byte>, l: Pieces, k: nat)
    requires Sized(l) && Canvas(f, Plan(l)) && k < l.n
    ensures Window(f, BlockSector(l.n, k) * 512, FullBitmap(), 512)
  {
    BitmapExtentNext(l, k);
    PlanOrdered(l);
    CanvasWindow(f, Plan(l), 5 + 2 * k, BlockSector(l.n, k) * 512, FullBitmap(), 512);
  }

  lemma CanvasDataAt(f: seq<byte>, l: Pieces, k: nat)
    requires Sized(l) && Canvas(f, Plan(l)) && k < l.n
    ensures Window(f, BlockSector(l.n, k) * 512 + 512, Chunk(l, k), 2097152)
  {
    DataExtent(l, k);
    PlanOrdered(l);
    CanvasWindow(f, Plan(l), 6 + 2 * k, BlockSector(l.n, k) * 512 + 512, Chunk(l, k), 2097152);
  }

  lemma DataExtent(l: Pieces, k: nat)
    requires Sized(l) && k < l.n
    ensures var es, at := Plan(l), BlockSector(l.n, k) * 512 + 512;
      7 + 2 * k < |es| && es[6 + 2 * k] == Extent(at, Chunk(l, k)) && at + 2097152 <= es[7 + 2 * k].at
  {
    BitmapExtentNext(l, k);
    ChunkExtentNext(l, k);
  }

  /** Every block stands where the BAT says. */
  lemma CanvasBlockAt(f: seq<byte>, l: Pieces, k: nat)
    requires Sized(l) && Canvas(f, Plan(l)) && k < l.n
    ensures l.n == Entries(|l.input|) && BlockAt(f, BlockSector(l.n, k), BlockOf(l.input, k))
  {
    CanvasBitmapAt(f, l, k);
    CanvasDataAt(f, l, k);
    ChunkPadded(l, k);
  }
}
