/** Cylinder/head/sector geometry stored in a VHD footer ("Appendix: CHS
    Calculation" of the Virtual Hard Disk Image Format Specification). */
module VhdGeometry {
  import opened Bytes

  const MAX_SECTORS: nat := 65535 * 16 * 255

  datatype Chs = Chs(cylinders: nat, heads: nat, spt: nat)

  /** The sector count that the geometry has to cover. */
  function CappedSectors(size: nat): nat {
    var sectors := Divro(size, 512);
    if sectors > MAX_SECTORS then MAX_SECTORS else sectors
  }

  function VhdChs(size: nat): Chs {
    var sectors := CappedSectors(size);
    if sectors >= 66059280 then
      Chs(sectors / 255 / 16, 16, 255)
    else
      var cth17 := sectors / 17;
      var rounded := (cth17 + 1023) / 1024;
      var heads17 := if rounded < 4 then 4 else rounded;
      var (cth, heads, spt) :=
        if cth17 >= heads17 * 1024 || heads17 > 16 then (sectors / 31, 16, 31)
        else (cth17, heads17, 17);
      if cth >= heads * 1024 then Chs(sectors / 63 / 16, 16, 63)
      else Chs(cth / heads, heads, spt)
  }

  lemma MulOrder(x: int, y: int, a: nat)
    requires x <= y
    ensures x * a <= y * a
  {
  }

  lemma MulCancel(x: int, y: int, a: nat)
    requires x * a < y * a
    ensures x < y
  {
    if x >= y {
      MulOrder(y, x, a);
    }
  }

  lemma MulSum(x: int, y: int, a: nat)
    ensures (x + y) * a == x * a + y * a
  {
  }

  lemma MulRegroup(r: nat, b: nat, a: nat)
    ensures r * b * a == r * (b * a)
  {
  }

  lemma FloorBounds(n: nat, a: nat)
    requires a > 0
    ensures n / a * a <= n < n / a * a + a
  {
    assert n == a * (n / a) + n % a;
  }

  lemma NestedProducts(n: nat, q: nat, r: nat, a: nat, b: nat)
    requires q * a <= n < q * a + a && r * b <= q < r * b + b
    ensures r * (b * a) <= n < r * (b * a) + b * a
  {
    MulRegroup(r, b, a);
    MulOrder(r * b, q, a);
    MulOrder(q + 1, r * b + b, a);
    MulSum(r * b, b, a);
    MulSum(q, 1, a);
  }

  /** Dividing twice, rounding down, loses less than one `a * b` unit. */
  lemma NestedFloor(n: nat, a: nat, b: nat)
    requires a > 0 && b > 0
    ensures n / a / b * (b * a) <= n < n / a / b * (b * a) + b * a
  {
    FloorBounds(n, a);
    FloorBounds(n / a, b);
    NestedProducts(n, n / a, n / a / b, a, b);
  }

  lemma DivBelow(n: nat, d: nat, limit: nat)
    requires d > 0 && n < d * limit
    ensures n / d < limit
  {
    assert n == d * (n / d) + n % d;
    MulCancel(n / d, limit, d);
  }

  lemma FieldRanges(size: nat)
    ensures var g := VhdChs(size);
      && 4 <= g.heads <= 16 && g.spt in {17, 31, 63, 255}
      && g.cylinders == CappedSectors(size) / g.spt / g.heads
      && g.cylinders <= 65535
  {
    var sectors, g := CappedSectors(size), VhdChs(size);
    if g.spt == 17 {
      DivBelow(sectors / 17, g.heads, 1024);
    }
  }

  /** Every field fits its width in the footer; the capacity never exceeds the
      capped sector count and misses it by less than one cylinder. */
  lemma GeometryCovers(size: nat)
    ensures var g := VhdChs(size);
      && g.cylinders <= 65535 && 4 <= g.heads <= 16 && g.spt in {17, 31, 63, 255}
      && g.cylinders * (g.heads * g.spt) <= CappedSectors(size)
      && CappedSectors(size) < g.cylinders * (g.heads * g.spt) + g.heads * g.spt
  {
    FieldRanges(size);
    NestedFloor(CappedSectors(size), VhdChs(size).spt, VhdChs(size).heads);
  }

  /** Which sectors-per-track value is chosen, by thresholds on the sector count.
      A track count that is a multiple of 1024 (and at least 4096) skips 17. */
  lemma SectorsPerTrack(size: nat)
    ensures var s := CappedSectors(size);
      VhdChs(size).spt ==
        if s >= 66059280 then 255
        else if s >= 507904 then 63
        else if s < 278528 && (s < 69632 || s / 17 % 1024 != 0) then 17
        else 31
  {
    var s := CappedSectors(size);
    var cth17 := s / 17;
    assert s < 278528 <==> cth17 < 16384;
    assert s < 69632 <==> cth17 < 4096;
    assert s < 507904 <==> s / 31 < 16384;
  }
}
