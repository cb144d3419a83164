/** Byte strings, big-endian numbers and the part of Python's `struct` module
    that the VHD converter uses. */
module Bytes {
  import opened Basics

  type byte = b: int | 0 <= b < 256

  const U32: nat := 0x1_0000_0000

  function Zeros(n: nat): (z: seq<byte>)
    ensures |z| == n && forall i :: 0 <= i < n ==> z[i] == 0
  {
    seq(n, _ => 0)
  }

  /** Integer division rounding up. */
  function Divro(num: nat, den: nat): (q: nat)
    requires den > 0
    ensures den * q >= num
    ensures q > 0 ==> den * (q - 1) < num
  {
    (num + den - 1) / den
  }

  function Pow256(n: nat): (p: nat)
    ensures p > 0
  {
    if n == 0 then 1 else 256 * Pow256(n - 1)
  }

  function BigEndian(v: nat, width: nat): (s: seq<byte>)
    ensures |s| == width
  {
    if width == 0 then [] else BigEndian(v / 256, width - 1) + [v % 256]
  }

  function FromBigEndian(s: seq<byte>): nat {
    if s == [] then 0 else 256 * FromBigEndian(s[..|s| - 1]) + s[|s| - 1]
  }

  lemma {:induction false} BigEndianRoundTrip(v: nat, width: nat)
    requires v < Pow256(width)
    ensures FromBigEndian(BigEndian(v, width)) == v
  {
    if width > 0 {
      BigEndianRoundTrip(v / 256, width - 1);
      assert BigEndian(v, width)[..width - 1] == BigEndian(v / 256, width - 1);
    }
  }

  lemma Pow256Values()
    ensures Pow256(1) == 0x100 && Pow256(2) == 0x1_0000 && Pow256(4) == U32
    ensures Pow256(8) == 0x1_0000_0000_0000_0000
  {
    assert Pow256(3) == 0x100_0000;
    assert Pow256(5) == 0x100 * 0x1_0000_0000;
    assert Pow256(6) == 0x1_0000 * 0x1_0000_0000;
    assert Pow256(7) == 0x100_0000 * 0x1_0000_0000;
  }

  /** The number stored big-endian in `width` bytes at offset `at`. */
  function NumberAt(f: seq<byte>, at: nat, width: nat): nat
    requires at + width <= |f|
  {
    FromBigEndian(f[at..at + width])
  }

  function Sum(s: seq<byte>): (n: nat)
    ensures n <= 255 * |s|
  {
    if s == [] then 0 else Sum(s[..|s| - 1]) + s[|s| - 1]
  }

  /** `c ^ 0xFFFFFFFF`: the low 32 bits are complemented, higher bits kept. */
  function Xor32(c: nat): (x: nat)
    ensures c < U32 ==> x == U32 - 1 - c
  {
    c / 0x1_0000_0000 * 0x1_0000_0000 + (0xFFFF_FFFF - c % 0x1_0000_0000)
  }

  function Checksum(s: seq<byte>): nat { Xor32(Sum(s)) }

  /** `s` with `width` bytes at `at` overwritten by zeros. */
  function Blank(s: seq<byte>, at: nat, width: nat): (b: seq<byte>)
    requires at + width <= |s|
    ensures |b| == |s|
  {
    s[..at] + Zeros(width) + s[at + width..]
  }

  /** vhd_checksum: the accumulating loop. */
  method VhdChecksum(s: seq<byte>) returns (checksum: nat)
    ensures checksum == Checksum(s)
  {
    var total: nat := 0;
    for i := 0 to |s|
      invariant total == Sum(s[..i])
    {
      assert s[..i + 1][..i] == s[..i];
      total := total + s[i];
    }
    assert s[..|s|] == s;
    checksum := Xor32(total);
  }

  /** zerostring: one byte short of its argument, and empty for 0. */
  method ZeroString(len: nat) returns (zs: seq<byte>)
    ensures zs == Zeros(if len == 0 then 0 else len - 1)
  {
    zs := [];
    var i := 1;
    while i < len
      invariant 1 <= i <= (if len == 0 then 1 else len)
      invariant zs == Zeros(i - 1)
    {
      zs := zs + [0];
      i := i + 1;
    }
  }
}

/** `struct.pack` for big-endian formats without padding between fields. */
module Struct {
  import opened Basics
  import opened Bytes

  /** `Ns` and `B`/`H`/`I`/`Q` format codes. */
  datatype Code = Text(width: nat) | Unsigned(width: nat)

  datatype Value = Str(s: seq<byte>) | Num(n: nat)

  /** `struct.error` is raised for a value of the wrong kind or range. */
  predicate FieldFits(c: Code, v: Value) {
    match c
    case Text(_) => v.Str?
    case Unsigned(w) => v.Num? && v.n < Pow256(w)
  }

  function PackField(c: Code, v: Value): (b: seq<byte>)
    requires FieldFits(c, v)
    ensures |b| == c.width
  {
    match c
    case Text(w) => if |v.s| >= w then v.s[..w] else v.s + Zeros(w - |v.s|)
    case Unsigned(w) => BigEndian(v.n, w)
  }

  predicate Fits(fmt: seq<Code>, vals: seq<Value>) {
    |fmt| == |vals| && forall i :: 0 <= i < |fmt| ==> FieldFits(fmt[i], vals[i])
  }

  /** Byte offset of field `i`; `Offset(fmt, |fmt|)` is `struct.calcsize`. */
  function Offset(fmt: seq<Code>, i: nat): nat
    requires i <= |fmt|
  {
    if i == 0 then 0 else Offset(fmt, i - 1) + fmt[i - 1].width
  }

  function PackTo(fmt: seq<Code>, vals: seq<Value>, i: nat): (b: seq<byte>)
    requires Fits(fmt, vals) && i <= |fmt|
    ensures |b| == Offset(fmt, i)
  {
    if i == 0 then [] else PackTo(fmt, vals, i - 1) + PackField(fmt[i - 1], vals[i - 1])
  }

  function Pack(fmt: seq<Code>, vals: seq<Value>): (b: seq<byte>)
    requires Fits(fmt, vals)
    ensures |b| == Offset(fmt, |fmt|)
  {
    PackTo(fmt, vals, |fmt|)
  }

  function StructPack(fmt: seq<Code>, vals: seq<Value>): Option<seq<byte>> {
    if Fits(fmt, vals) then Some(Pack(fmt, vals)) else None
  }

  lemma {:induction false} OffsetMonotone(fmt: seq<Code>, i: nat, j: nat)
    requires i <= j <= |fmt|
    ensures Offset(fmt, i) <= Offset(fmt, j)
  {
    if i < j {
      OffsetMonotone(fmt, i, j - 1);
    }
  }

  /** Whether field `i` stands at its offset once `k` fields are packed. */
  predicate InPrefix(fmt: seq<Code>, vals: seq<Value>, i: nat, k: nat)
    requires Fits(fmt, vals) && i < k <= |fmt|
  {
    && Offset(fmt, i) <= Offset(fmt, i + 1) <= Offset(fmt, k)
    && PackTo(fmt, vals, k)[Offset(fmt, i)..Offset(fmt, i + 1)] == PackField(fmt[i], vals[i])
  }

  lemma {:induction false} FieldInPrefix(fmt: seq<Code>, vals: seq<Value>, i: nat, k: nat)
    requires Fits(fmt, vals) && i < k <= |fmt|
    ensures InPrefix(fmt, vals, i, k)
    decreases k
  {
    if i + 1 == k {
      LastField(fmt, vals, i);
    } else {
      FieldInPrefix(fmt, vals, i, k - 1);
      LaterField(fmt, vals, i, k - 1);
    }
  }

  /** Packing one more field leaves the earlier ones in place. */
  lemma LaterField(fmt: seq<Code>, vals: seq<Value>, i: nat, k: nat)
    requires Fits(fmt, vals) && i < k < |fmt| && InPrefix(fmt, vals, i, k)
    ensures InPrefix(fmt, vals, i, k + 1)
  {
    SliceOfFront(PackTo(fmt, vals, k), PackField(fmt[k], vals[k]), Offset(fmt, i), Offset(fmt, i + 1));
  }

  lemma LastField(fmt: seq<Code>, vals: seq<Value>, k: nat)
    requires Fits(fmt, vals) && k < |fmt|
    ensures InPrefix(fmt, vals, k, k + 1)
  {
    SliceOfBack(PackTo(fmt, vals, k), PackField(fmt[k], vals[k]), Offset(fmt, k), Offset(fmt, k + 1));
  }

  lemma SliceOfFront(a: seq<byte>, b: seq<byte>, lo: nat, hi: nat)
    requires lo <= hi <= |a|
    ensures (a + b)[lo..hi] == a[lo..hi]
  {
  }

  lemma SliceOfBack(a: seq<byte>, b: seq<byte>, lo: nat, hi: nat)
    requires lo == |a| && hi == |a| + |b|
    ensures (a + b)[lo..hi] == b
  {
  }

  /** Field `i` of a packed structure is found at `Offset(fmt, i)`. */
  lemma FieldAt(fmt: seq<Code>, vals: seq<Value>, i: nat)
    requires Fits(fmt, vals) && i < |fmt|
    ensures Offset(fmt, i) + fmt[i].width <= Offset(fmt, |fmt|)
    ensures Pack(fmt, vals)[Offset(fmt, i)..Offset(fmt, i) + fmt[i].width] == PackField(fmt[i], vals[i])
  {
    FieldInPrefix(fmt, vals, i, |fmt|);
  }

  /** Unpacking a number recovers the value that was packed. */
  lemma NumberField(fmt: seq<Code>, vals: seq<Value>, i: nat)
    requires Fits(fmt, vals) && i < |fmt| && fmt[i].Unsigned?
    ensures Offset(fmt, i) + fmt[i].width <= |Pack(fmt, vals)|
    ensures NumberAt(Pack(fmt, vals), Offset(fmt, i), fmt[i].width) == vals[i].n
  {
    var n, w := vals[i].n, fmt[i].width;
    assert FieldFits(fmt[i], vals[i]);
    FieldAt(fmt, vals, i);
    NumberOf(Pack(fmt, vals), Offset(fmt, i), n, w);
  }

  lemma NumberOf(b: seq<byte>, at: nat, n: nat, w: nat)
    requires n < Pow256(w) && at + w <= |b| && b[at..at + w] == BigEndian(n, w)
    ensures NumberAt(b, at, w) == n
  {
    BigEndianRoundTrip(n, w);
  }

  /** Equal length and equal outside a window. */
  predicate AgreeOutside(a: seq<byte>, b: seq<byte>, lo: nat, hi: nat) {
    |a| == |b| && forall p :: 0 <= p < |a| && !(lo <= p < hi) ==> b[p] == a[p]
  }

  lemma AgreeAppend(a: seq<byte>, b: seq<byte>, x: seq<byte>, y: seq<byte>, lo: nat, hi: nat)
    requires AgreeOutside(a, b, lo, hi) && |x| == |y| && (x == y || (lo <= |a| && |a| + |x| <= hi))
    ensures AgreeOutside(a + x, b + y, lo, hi)
  {
  }

  /** Changing one value changes no byte outside its field. */
  lemma {:induction false} PackToChanged(fmt: seq<Code>, vals: seq<Value>, i: nat, v: Value, k: nat)
    requires Fits(fmt, vals) && i < |fmt| && FieldFits(fmt[i], v) && k <= |fmt|
    ensures Fits(fmt, vals[i := v])
    ensures AgreeOutside(PackTo(fmt, vals, k), PackTo(fmt, vals[i := v], k), Offset(fmt, i), Offset(fmt, i + 1))
    decreases k
  {
    if k > 0 {
      var n := k - 1;
      PackToChanged(fmt, vals, i, v, n);
      AgreeAppend(PackTo(fmt, vals, n), PackTo(fmt, vals[i := v], n),
                  PackField(fmt[n], vals[n]), PackField(fmt[n], vals[i := v][n]), Offset(fmt, i), Offset(fmt, i + 1));
    }
  }

  /** Two byte strings that agree outside a window, one of them zero inside it. */
  lemma BlankWindow(a: seq<byte>, b: seq<byte>, at: nat, width: nat)
    requires at + width <= |a| && AgreeOutside(a, b, at, at + width)
    requires b[at..at + width] == Zeros(width)
    ensures Blank(a, at, width) == b
  {
    assert a[..at] == b[..at];
    assert a[at + width..] == b[at + width..];
    assert b == b[..at] + b[at..at + width] + b[at + width..];
  }

  /** Blanking a numeric field equals packing the value 0 there. */
  lemma BlankedField(fmt: seq<Code>, vals: seq<Value>, i: nat)
    requires Fits(fmt, vals) && i < |fmt| && fmt[i].Unsigned?
    ensures Offset(fmt, i) + fmt[i].width <= |Pack(fmt, vals)|
    ensures Fits(fmt, vals[i := Num(0)])
    ensures Blank(Pack(fmt, vals), Offset(fmt, i), fmt[i].width) == Pack(fmt, vals[i := Num(0)])
  {
    FieldAt(fmt, vals, i);
    FieldAt(fmt, vals[i := Num(0)], i);
    PackToChanged(fmt, vals, i, Num(0), |fmt|);
    BigEndianOfZero(fmt[i].width);
    BlankWindow(Pack(fmt, vals), Pack(fmt, vals[i := Num(0)]), Offset(fmt, i), fmt[i].width);
  }

  lemma {:induction false} BigEndianOfZero(width: nat)
    ensures BigEndian(0, width) == Zeros(width)
  {
    if width > 0 {
      BigEndianOfZero(width - 1);
    }
  }
}
