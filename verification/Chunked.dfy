/** Reading a request body in the chunked transfer coding (section 4.1 of RFC 7230). */
module Chunked {
  import opened Basics
  import opened Bytes

  const CR: byte := 13
  const LF: byte := 10
  const SEMICOLON: byte := 59
  const UNDERSCORE: byte := 95
  const CRLF: seq<byte> := [CR, LF]

  // ----- The input stream -----

  /** How many of `left` bytes a read of `n` returns: at least one unless the
      stream has ended, otherwise as the source pleases. */
  function Given(grant: (nat, nat) -> nat, left: nat, n: nat): (k: nat)
    ensures k <= n && k <= left && (n > 0 && left > 0 ==> k > 0)
  {
    if n == 0 || left == 0 then 0
    else
      var most := if n < left then n else left;
      var g := grant(left, n);
      if g < 1 then 1 else if g < most then g else most
  }

  class Input {
    const grant: (nat, nat) -> nat
    var rest: seq<byte>

    constructor (bytes: seq<byte>, g: (nat, nat) -> nat)
      ensures rest == bytes && grant == g
    {
      rest, grant := bytes, g;
    }

    method Read(n: nat) returns (data: seq<byte>)
      modifies this
      ensures var k := Given(grant, |old(rest)|, n); data == old(rest)[..k] && rest == old(rest)[k..]
    {
      var k := Given(grant, |rest|, n);
      data := rest[..k];
      rest := rest[k..];
    }
  }

  // ----- Chunk headers -----

  predicate EndsLine(s: seq<byte>) { |s| >= 2 && s[|s| - 2..] == CRLF }

  datatype Line = Line(header: seq<byte>, rest: seq<byte>, ok: bool)

  /** The loop that completes a header line byte by byte. */
  function ReadLine(header: seq<byte>, rest: seq<byte>, bufsize: nat): (line: Line)
    ensures line.ok ==> EndsLine(line.header)
    ensures line.header + line.rest == header + rest
    decreases rest
  {
    if EndsLine(header) then Line(header, rest, true)
    else if rest == [] then Line(header, rest, false)
    else
      var header' := header + [rest[0]];
      assert header' + rest[1..] == header + rest;
      if |header'| > bufsize then Line(header', rest[1..], false) else ReadLine(header', rest[1..], bufsize)
  }

  function NextLine(grant: (nat, nat) -> nat, rest: seq<byte>, bufsize: nat): (line: Line)
    ensures |line.header| + |line.rest| == |rest| && (line.ok ==> EndsLine(line.header))
  {
    var start := Given(grant, |rest|, 1);
    assert |rest[..start] + rest[start..]| == |rest|;
    ReadLine(rest[..start], rest[start..], bufsize)
  }

  predicate IsSpace(b: byte) { b == 32 || 9 <= b <= 13 }

  function StripLeft(s: seq<byte>): seq<byte> { if s != [] && IsSpace(s[0]) then StripLeft(s[1..]) else s }

  function StripRight(s: seq<byte>): seq<byte> {
    if s != [] && IsSpace(s[|s| - 1]) then StripRight(s[..|s| - 1]) else s
  }

  function BeforeSemicolon(s: seq<byte>): seq<byte> {
    if s == [] || s[0] == SEMICOLON then [] else [s[0]] + BeforeSemicolon(s[1..])
  }

  function Digit(b: byte): Option<nat> {
    if 48 <= b <= 57 then Some(b - 48)
    else if 65 <= b <= 70 then Some(b - 55)
    else if 97 <= b <= 102 then Some(b - 87)
    else None
  }

  predicate AllDigits(s: seq<byte>) { forall i :: 0 <= i < |s| ==> Digit(s[i]).Some? }

  function HexValue(s: seq<byte>): nat
    requires AllDigits(s)
  {
    if s == [] then 0 else 16 * HexValue(s[..|s| - 1]) + Digit(s[|s| - 1]).value
  }

  /** The digits without the single underscores that may stand between them. */
  function Ungrouped(s: seq<byte>): Option<seq<byte>> {
    if s == [] || Digit(s[0]) == None then None
    else if |s| == 1 then Some(s)
    else
      var rest := Ungrouped(if s[1] == UNDERSCORE then s[2..] else s[1..]);
      if rest == None then None else Some([s[0]] + rest.value)
  }

  /** What follows a prefix `0x`, which one underscore may end. */
  function Unprefixed(s: seq<byte>): seq<byte> {
    if |s| < 2 || s[0] != 48 || (s[1] != 120 && s[1] != 88) then s
    else if |s| > 2 && s[2] == UNDERSCORE then s[3..]
    else s[2..]
  }

  function ParseDigits(s: seq<byte>): Option<nat> {
    var digits := Ungrouped(Unprefixed(s));
    if digits.Some? && AllDigits(digits.value) then Some(HexValue(digits.value)) else None
  }

  /** `int(s, 16)`; None for ValueError. */
  function ParseHex(s: seq<byte>): Option<int> {
    if s != [] && (s[0] == 43 || s[0] == 45) then
      var n := ParseDigits(s[1..]);
      if n == None then None else Some(if s[0] == 45 then 0 - n.value else n.value as int)
    else
      var n := ParseDigits(s);
      if n == None then None else Some(n.value)
  }

  /** UTF-8 of the Unicode spaces that `int` skips like ASCII ones: two bytes ... */
  predicate IsSpace2(a: byte, b: byte) { a == 0xC2 && (b == 0x85 || b == 0xA0) }

  /** ... or three. */
  predicate IsSpace3(a: byte, b: byte, c: byte) {
    || (a == 0xE1 && b == 0x9A && c == 0x80)
    || (a == 0xE2 && b == 0x80 && (0x80 <= c <= 0x8A || c == 0xA8 || c == 0xA9 || c == 0xAF))
    || (a == 0xE2 && b == 0x81 && c == 0x9F)
    || (a == 0xE3 && b == 0x80 && c == 0x80)
  }

  /** The number of bytes of the space that `s` begins with. */
  function SpaceFirst(s: seq<byte>): (n: nat)
    ensures n <= |s|
  {
    if |s| >= 1 && IsSpace(s[0]) then 1
    else if |s| >= 2 && IsSpace2(s[0], s[1]) then 2
    else if |s| >= 3 && IsSpace3(s[0], s[1], s[2]) then 3
    else 0
  }

  /** ... ends with. */
  function SpaceLast(s: seq<byte>): (n: nat)
    ensures n <= |s|
  {
    if |s| >= 1 && IsSpace(s[|s| - 1]) then 1
    else if |s| >= 2 && IsSpace2(s[|s| - 2], s[|s| - 1]) then 2
    else if |s| >= 3 && IsSpace3(s[|s| - 3], s[|s| - 2], s[|s| - 1]) then 3
    else 0
  }

  function SkipLeft(s: seq<byte>): seq<byte> { if SpaceFirst(s) == 0 then s else SkipLeft(s[SpaceFirst(s)..]) }

  function SkipRight(s: seq<byte>): seq<byte> {
    if SpaceLast(s) == 0 then s else SkipRight(s[..|s| - SpaceLast(s)])
  }

  /** `int(tonat(size.strip()), 16)`. */
  function ParseSize(size: seq<byte>): Option<int> { ParseHex(SkipRight(SkipLeft(StripRight(StripLeft(size))))) }

  function SizeOf(header: seq<byte>): Option<int> { ParseSize(BeforeSemicolon(header)) }

  // ----- The decoder -----

  /** What was yielded, what is left of the input, and whether no error was raised. */
  datatype Decoded = Decoded(parts: seq<seq<byte>>, rest: seq<byte>, ok: bool) {
    function After(before: seq<seq<byte>>): Decoded { this.(parts := before + parts) }
  }

  /** The loop that yields the data of one chunk. */
  function ReadData(grant: (nat, nat) -> nat, rest: seq<byte>, want: nat, bufsize: nat): (d: Decoded)
    ensures |d.rest| <= |rest|
    decreases want
  {
    if want == 0 then Decoded([], rest, true)
    else
      var k := Given(grant, |rest|, if want < bufsize then want else bufsize);
      if k == 0 then Decoded([], rest, false)
      else ReadData(grant, rest[k..], want - k, bufsize).After([rest[..k]])
  }

  function Decode(grant: (nat, nat) -> nat, rest: seq<byte>, bufsize: nat): Decoded
    decreases |rest|
  {
    var line := NextLine(grant, rest, bufsize);
    var size := SizeOf(line.header);
    if !line.ok || size == None then Decoded([], line.rest, false)
    else if size.value == 0 then Decoded([], line.rest, true)
    else
      // A negative size reads no data at all.
      var data := ReadData(grant, line.rest, if size.value > 0 then size.value else 0, bufsize);
      if !data.ok then data
      else
        var k := Given(grant, |data.rest|, 2);
        if data.rest[..k] != CRLF then Decoded(data.parts, data.rest[k..], false)
        else Decode(grant, data.rest[k..], bufsize).After(data.parts)
  }

  /** How a turn of the decoder's outer loop ends. */
  datatype Turn = Again | Ended | Raised

  /** _iter_chunked: the parts that it yields until it ends or raises. */
  method IterChunked(input: Input, bufsize: nat) returns (parts: seq<seq<byte>>, ok: bool)
    modifies input
    ensures Decoded(parts, input.rest, ok) == Decode(input.grant, old(input.rest), bufsize)
  {
    parts := [];
    ghost var d := Decode(input.grant, input.rest, bufsize);
    var turn := Again;
    while turn == Again
      invariant d == if turn == Again then Decode(input.grant, input.rest, bufsize).After(parts)
                     else Decoded(parts, input.rest, turn == Ended)
      decreases if turn == Again then |input.rest| + 1 else 0
    {
      turn, parts := NextChunk(input, bufsize, parts);
    }
    ok := turn == Ended;
  }

  method NextChunk(input: Input, bufsize: nat, before: seq<seq<byte>>) returns (turn: Turn, parts: seq<seq<byte>>)
    modifies input
    ensures turn == Again ==> |input.rest| < |old(input.rest)|
    ensures Decode(input.grant, old(input.rest), bufsize).After(before)
            == if turn == Again then Decode(input.grant, input.rest, bufsize).After(parts)
               else Decoded(parts, input.rest, turn == Ended)
  {
    DecodeTurn(input.grant, input.rest, bufsize, before);
    parts := before;
    var header := ReadHeader(input, bufsize);
    if header == None {
      return Raised, parts;
    }
    var size := SizeOf(header.value);
    if size == None {
      return Raised, parts;
    }
    if size.value == 0 {
      return Ended, parts;
    }
    var more, whole := ReadParts(input, if size.value > 0 then size.value else 0, bufsize);
    parts := parts + more;
    if !whole {
      return Raised, parts;
    }
    var end := input.Read(2);
    turn := if end != CRLF then Raised else Again;
  }

  /** One turn of the decoder, with what was yielded before it. */
  lemma DecodeTurn(grant: (nat, nat) -> nat, rest: seq<byte>, bufsize: nat, parts: seq<seq<byte>>)
    ensures var line := NextLine(grant, rest, bufsize); var size := SizeOf(line.header);
      Decode(grant, rest, bufsize).After(parts)
      == if !line.ok || size == None then Decoded(parts, line.rest, false)
         else if size.value == 0 then Decoded(parts, line.rest, true)
         else
           var data := ReadData(grant, line.rest, if size.value > 0 then size.value else 0, bufsize);
           var k := Given(grant, |data.rest|, 2);
           if !data.ok then data.After(parts)
           else if data.rest[..k] != CRLF then Decoded(parts + data.parts, data.rest[k..], false)
           else Decode(grant, data.rest[k..], bufsize).After(parts + data.parts)
  {
    var line := NextLine(grant, rest, bufsize);
    var size := SizeOf(line.header);
    if line.ok && size.Some? && size.value != 0 {
      var data := ReadData(grant, line.rest, if size.value > 0 then size.value else 0, bufsize);
      var k := Given(grant, |data.rest|, 2);
      if data.ok && data.rest[..k] == CRLF {
        AfterTwice(Decode(grant, data.rest[k..], bufsize), parts, data.parts);
      }
    }
  }

  method ReadHeader(input: Input, bufsize: nat) returns (header: Option<seq<byte>>)
    modifies input
    ensures var line := NextLine(input.grant, old(input.rest), bufsize);
      input.rest == line.rest && header == if line.ok then Some(line.header) else None
  {
    var text := input.Read(1);
    ghost var line := ReadLine(text, input.rest, bufsize);
    while !EndsLine(text)
      invariant ReadLine(text, input.rest, bufsize) == line
      decreases input.rest
    {
      ghost var rest := input.rest;
      var c := input.Read(1);
      assert if rest == [] then c == [] && input.rest == [] else c == [rest[0]] && input.rest == rest[1..];
      text := text + c;
      if c == [] {
        return None;
      }
      if |text| > bufsize {
        return None;
      }
    }
    header := Some(text);
  }

  /** The inner loop of _iter_chunked. */
  method ReadParts(input: Input, size: nat, bufsize: nat) returns (parts: seq<seq<byte>>, ok: bool)
    modifies input
    ensures Decoded(parts, input.rest, ok) == ReadData(input.grant, old(input.rest), size, bufsize)
  {
    parts := [];
    var maxread: nat, buff := size, [];
    ghost var d := ReadData(input.grant, input.rest, size, bufsize);
    while maxread > 0
      invariant buff == [] && d == ReadData(input.grant, input.rest, maxread, bufsize).After(parts)
      decreases maxread
    {
      var part;
      part, buff := NextPart(input, buff, maxread, bufsize, parts);
      if part == [] {
        return parts, false;
      }
      parts := parts + [part];
      maxread := maxread - |part|;
    }
    ok := true;
  }

  /** One turn of that loop, after `parts`; the buffer is always used up. */
  method NextPart(input: Input, buffered: seq<byte>, maxread: nat, bufsize: nat, ghost parts: seq<seq<byte>>)
    returns (part: seq<byte>, buff: seq<byte>)
    requires buffered == [] && maxread > 0
    modifies input
    ensures buff == [] && |part| <= maxread
    ensures ReadData(input.grant, old(input.rest), maxread, bufsize).After(parts)
            == if part == [] then Decoded(parts, input.rest, false)
               else ReadData(input.grant, input.rest, maxread - |part|, bufsize).After(parts + [part])
  {
    buff := buffered;
    if buff == [] {
      buff := input.Read(if maxread < bufsize then maxread else bufsize);
    }
    TakeAll(buff, maxread);
    part, buff := Take(buff, maxread), Drop(buff, maxread);
    if part != [] {
      DataTurn(input.grant, old(input.rest), maxread, bufsize, parts);
    }
  }

  /** Python's `s[:n]` and `s[n:]`. */
  function Take(s: seq<byte>, n: nat): seq<byte> { if |s| < n then s else s[..n] }

  function Drop(s: seq<byte>, n: nat): seq<byte> { if |s| < n then [] else s[n..] }

  lemma TakeAll(s: seq<byte>, n: nat)
    requires |s| <= n
    ensures Take(s, n) == s && Drop(s, n) == []
  {
  }

  lemma DataTurn(grant: (nat, nat) -> nat, rest: seq<byte>, want: nat, bufsize: nat, parts: seq<seq<byte>>)
    requires Given(grant, |rest|, if want < bufsize then want else bufsize) > 0
    ensures var k := Given(grant, |rest|, if want < bufsize then want else bufsize);
      ReadData(grant, rest, want, bufsize).After(parts)
      == ReadData(grant, rest[k..], want - k, bufsize).After(parts + [rest[..k]])
  {
    var k := Given(grant, |rest|, if want < bufsize then want else bufsize);
    AfterTwice(ReadData(grant, rest[k..], want - k, bufsize), parts, [rest[..k]]);
  }

  lemma AfterTwice(d: Decoded, a: seq<seq<byte>>, b: seq<seq<byte>>)
    ensures d.After(b).After(a) == d.After(a + b)
  {
    assert a + (b + d.parts) == a + b + d.parts;
  }

  // ----- The body -----

  function Concat(parts: seq<seq<byte>>): seq<byte> {
    if parts == [] then [] else Concat(parts[..|parts| - 1]) + parts[|parts| - 1]
  }

  lemma {:induction false} ConcatAppend(a: seq<seq<byte>>, b: seq<seq<byte>>)
    ensures Concat(a + b) == Concat(a) + Concat(b)
  {
    if b == [] {
      assert a + b == a;
    } else {
      ConcatAppend(a, b[..|b| - 1]);
      assert (a + b)[..|a + b| - 1] == a + b[..|b| - 1];
    }
  }

  lemma ConcatNext(parts: seq<seq<byte>>, i: nat)
    requires i < |parts|
    ensures Concat(parts[..i + 1]) == Concat(parts[..i]) + parts[i]
  {
    assert parts[..i + 1][..i] == parts[..i];
  }

  /** _body: the parts are collected in memory and move to a temporary file once
      they outgrow `memfileMax`; the memory buffer never holds more than that and
      one part. */
  method Spill(parts: seq<seq<byte>>, memfileMax: nat) returns (body: seq<byte>, isTempFile: bool)
    requires forall p :: p in parts ==> |p| <= memfileMax
    ensures body == Concat(parts)
    ensures isTempFile <==> |body| > memfileMax
  {
    var memory, file: seq<byte>, bodySize := [], [], 0;
    isTempFile := false;
    var i := 0;
    while i < |parts|
      invariant 0 <= i <= |parts|
      invariant (if isTempFile then file else memory) == Concat(parts[..i])
      invariant bodySize == |Concat(parts[..i])|
      invariant isTempFile <==> bodySize > memfileMax
      invariant |memory| <= 2 * memfileMax
    {
      var part := parts[i];
      ConcatNext(parts, i);
      if isTempFile {
        file := file + part;
      } else {
        memory := memory + part;
      }
      bodySize := bodySize + |part|;
      if !isTempFile && bodySize > memfileMax {
        file, isTempFile := memory, true;
      }
      i := i + 1;
    }
    assert parts[..i] == parts;
    body := if isTempFile then file else memory;
  }

  // ----- Encoded bodies -----

  /** A chunk as a sender writes it: the size in hexadecimal, extensions, data. */
  datatype Chunk = Chunk(size: seq<byte>, ext: seq<byte>, data: seq<byte>)

  predicate ExtOk(ext: seq<byte>) { LF !in ext && (ext != [] ==> ext[0] == SEMICOLON) }

  /** Header lines, their end included, fit the buffer. */
  predicate HeaderOk(size: seq<byte>, ext: seq<byte>, n: nat, bufsize: nat) {
    size != [] && AllDigits(size) && HexValue(size) == n && ExtOk(ext) && |size| + |ext| + 2 <= bufsize
  }

  predicate ChunkOk(c: Chunk, bufsize: nat) { c.data != [] && HeaderOk(c.size, c.ext, |c.data|, bufsize) }

  /** The chunks, then the last chunk `last` (whose data is empty) and whatever follows it. */
  function Encode(chunks: seq<Chunk>, last: Chunk, tail: seq<byte>): seq<byte> {
    if chunks == [] then last.size + last.ext + CRLF + tail
    else chunks[0].size + chunks[0].ext + CRLF + (chunks[0].data + (CRLF + Encode(chunks[1..], last, tail)))
  }

  function Data(chunks: seq<Chunk>): seq<byte> { if chunks == [] then [] else chunks[0].data + Data(chunks[1..]) }

  /** Every read of the two bytes after a chunk's data gets both of them. */
  predicate EndsWhole(grant: (nat, nat) -> nat, chunks: seq<Chunk>, last: Chunk, tail: seq<byte>) {
    chunks != [] ==>
      Given(grant, 2 + |Encode(chunks[1..], last, tail)|, 2) == 2 && EndsWhole(grant, chunks[1..], last, tail)
  }

  /** The header loop stops behind the first line feed if a carriage return precedes it. */
  lemma {:induction false} LineFound(s: seq<byte>, k: nat, e: nat, bufsize: nat)
    requires k <= e <= |s| && e <= bufsize && EndsLine(s[..e]) && forall j :: 0 <= j < e - 1 ==> s[j] != LF
    ensures ReadLine(s[..k], s[k..], bufsize) == Line(s[..e], s[e..], true)
    decreases e - k
  {
    if k < e {
      assert !EndsLine(s[..k]) by {
        if k >= 2 {
          assert s[..k][k - 2..][1] == s[k - 1];
        }
      }
      assert s[..k] + [s[k..][0]] == s[..k + 1] && s[k..][1..] == s[k + 1..];
      LineFound(s, k + 1, e, bufsize);
    }
  }

  lemma {:induction false} BeforeSemicolonIs(a: seq<byte>, b: seq<byte>)
    requires SEMICOLON !in a
    ensures BeforeSemicolon(a + b) == a + BeforeSemicolon(b)
  {
    if a == [] {
      assert a + b == b;
    } else {
      assert (a + b)[1..] == a[1..] + b;
      BeforeSemicolonIs(a[1..], b);
    }
  }

  lemma DigitsArePlain(size: seq<byte>)
    requires AllDigits(size)
    ensures SEMICOLON !in size && LF !in size
  {
    forall i | 0 <= i < |size|
      ensures size[i] != SEMICOLON && size[i] != LF
    {
      assert Digit(size[i]).Some?;
    }
  }

  lemma StripDigits(size: seq<byte>)
    requires size != [] && AllDigits(size)
    ensures StripRight(StripLeft(size)) == size
    ensures StripRight(StripLeft(size + CRLF)) == size
  {
    assert Digit(size[0]).Some? && Digit(size[|size| - 1]).Some?;
    var s := size + CRLF;
    assert s[0] == size[0];
    assert s[..|s| - 1] == size + [CR] && (size + [CR])[..|size|] == size;
  }

  lemma FieldFound(size: seq<byte>, ext: seq<byte>)
    requires AllDigits(size) && ExtOk(ext)
    ensures BeforeSemicolon(size + ext + CRLF) == if ext == [] then size + CRLF else size
  {
    DigitsArePlain(size);
    assert size + ext + CRLF == size + (ext + CRLF);
    BeforeSemicolonIs(size, ext + CRLF);
    if ext == [] {
      assert ext + CRLF == CRLF + [];
      BeforeSemicolonIs(CRLF, []);
    } else {
      assert (ext + CRLF)[0] == SEMICOLON;
      assert size + [] == size;
    }
  }

  lemma {:induction false} UngroupedDigits(size: seq<byte>)
    requires size != [] && AllDigits(size)
    ensures Ungrouped(size) == Some(size)
  {
    assert Digit(size[0]).Some?;
    if |size| > 1 {
      assert Digit(size[1]).Some?;
      UngroupedDigits(size[1..]);
      assert [size[0]] + size[1..] == size;
    }
  }

  lemma SkipDigits(size: seq<byte>)
    requires size != [] && AllDigits(size)
    ensures SkipRight(SkipLeft(size)) == size
  {
    assert Digit(size[0]).Some? && Digit(size[|size| - 1]).Some?;
    assert SpaceFirst(size) == 0 && SpaceLast(size) == 0;
  }

  lemma DigitsParse(size: seq<byte>)
    requires size != [] && AllDigits(size)
    ensures ParseHex(size) == Some(HexValue(size))
  {
    assert Digit(size[0]).Some?;
    assert |size| >= 2 ==> Digit(size[1]).Some?;
    UngroupedDigits(size);
  }

  /** The size is read from a well-formed header whatever extensions follow it. */
  lemma SizeFound(size: seq<byte>, ext: seq<byte>, n: nat, bufsize: nat)
    requires HeaderOk(size, ext, n, bufsize)
    ensures SizeOf(size + ext + CRLF) == Some(n)
  {
    FieldFound(size, ext);
    StripDigits(size);
    SkipDigits(size);
    DigitsParse(size);
  }

  lemma {:induction false} DataFound(grant: (nat, nat) -> nat, s: seq<byte>, want: nat, bufsize: nat)
    requires bufsize > 0 && want <= |s|
    ensures var d := ReadData(grant, s, want, bufsize);
      d.ok && Concat(d.parts) == s[..want] && d.rest == s[want..]
    decreases want
  {
    if want > 0 {
      var k := Given(grant, |s|, if want < bufsize then want else bufsize);
      var later := ReadData(grant, s[k..], want - k, bufsize);
      DataFound(grant, s[k..], want - k, bufsize);
      CutTwice(s, k, want);
      assert ReadData(grant, s, want, bufsize) == later.After([s[..k]]);
      ConcatCons(s[..k], later.parts);
    } else {
      assert s[..want] == [] && s[want..] == s;
    }
  }

  lemma CutTwice(s: seq<byte>, k: nat, n: nat)
    requires k <= n <= |s|
    ensures s[..k] + s[k..][..n - k] == s[..n] && s[k..][n - k..] == s[n..]
  {
  }

  lemma ConcatCons(a: seq<byte>, parts: seq<seq<byte>>)
    ensures Concat([a] + parts) == a + Concat(parts)
  {
    ConcatAppend([a], parts);
    assert [a][..0] == [];
    assert Concat([a]) == [] + a;
  }

  /** One turn of the decoder over a well-formed chunk. */
  lemma ChunkFound(grant: (nat, nat) -> nat, c: Chunk, more: seq<byte>, bufsize: nat)
    requires ChunkOk(c, bufsize)
    ensures var d := Decode(grant, c.size + c.ext + CRLF + (c.data + (CRLF + more)), bufsize);
      var data := ReadData(grant, c.data + (CRLF + more), |c.data|, bufsize);
      && Concat(data.parts) == c.data
      && if Given(grant, 2 + |more|, 2) == 2 then d == Decode(grant, more, bufsize).After(data.parts)
         else !d.ok && d.parts == data.parts
  {
    var rest := c.data + (CRLF + more);
    HeaderFound(grant, c.size, c.ext, |c.data|, rest, bufsize);
    DataFound(grant, rest, |c.data|, bufsize);
    assert rest[..|c.data|] == c.data && rest[|c.data|..] == CRLF + more;
    AfterData(grant, more);
  }

  /** The line break behind the data is read whole, or not. */
  lemma AfterData(grant: (nat, nat) -> nat, more: seq<byte>)
    ensures var rest, k := CRLF + more, Given(grant, 2 + |more|, 2);
      |rest| == 2 + |more| && if k == 2 then rest[..k] == CRLF && rest[k..] == more else rest[..k] != CRLF
  {
    assert (CRLF + more)[..2] == CRLF && (CRLF + more)[2..] == more;
  }

  lemma HeaderFound(grant: (nat, nat) -> nat, size: seq<byte>, ext: seq<byte>, n: nat, rest: seq<byte>, bufsize: nat)
    requires HeaderOk(size, ext, n, bufsize)
    ensures NextLine(grant, size + ext + CRLF + rest, bufsize) == Line(size + ext + CRLF, rest, true)
    ensures SizeOf(size + ext + CRLF) == Some(n)
  {
    var line := size + ext + CRLF;
    var s, e := line + rest, |line|;
    SizeFound(size, ext, n, bufsize);
    DigitsArePlain(size);
    assert s[..e] == line && s[e..] == rest && line[e - 2..] == CRLF;
    forall j | 0 <= j < e - 1
      ensures s[j] != LF
    {
      assert s[j] == if j < |size| then size[j] else if j < |size| + |ext| then ext[j - |size|] else CR;
    }
    LineFound(s, 1, e, bufsize);
  }

  /** A decoding that ends without an error exactly if `whole`, and then with all
      of `data` and the input's `tail` left; its parts are a prefix in any case. */
  predicate Decodes(d: Decoded, whole: bool, data: seq<byte>, tail: seq<byte>) {
    && (d.ok <==> whole)
    && (d.ok ==> Concat(d.parts) == data && d.rest == tail)
    && Concat(d.parts) <= data
  }

  /** `d` yields `data` and goes on like `next`, or stops with an error if the end
      of the chunk is not read whole. */
  predicate Follows(d: Decoded, next: Decoded, whole: bool, data: seq<byte>) {
    if whole then d.ok == next.ok && d.rest == next.rest && Concat(d.parts) == data + Concat(next.parts)
    else !d.ok && Concat(d.parts) == data
  }

  lemma DecodesNext(
    d: Decoded, next: Decoded, whole: bool, rest: bool, data: seq<byte>, more: seq<byte>, tail: seq<byte>)
    requires Follows(d, next, whole, data) && Decodes(next, rest, more, tail)
    ensures Decodes(d, whole && rest, data + more, tail)
  {
  }

  lemma ChunkThenRest(grant: (nat, nat) -> nat, c: Chunk, more: seq<byte>, bufsize: nat)
    requires ChunkOk(c, bufsize)
    ensures Follows(Decode(grant, c.size + c.ext + CRLF + (c.data + (CRLF + more)), bufsize),
                    Decode(grant, more, bufsize), Given(grant, 2 + |more|, 2) == 2, c.data)
  {
    ChunkFound(grant, c, more, bufsize);
    ConcatAppend(ReadData(grant, c.data + (CRLF + more), |c.data|, bufsize).parts, Decode(grant, more, bufsize).parts);
  }

  lemma LastChunkFound(grant: (nat, nat) -> nat, last: Chunk, tail: seq<byte>, bufsize: nat)
    requires HeaderOk(last.size, last.ext, 0, bufsize)
    ensures Decode(grant, last.size + last.ext + CRLF + tail, bufsize) == Decoded([], tail, true)
  {
    HeaderFound(grant, last.size, last.ext, 0, tail, bufsize);
  }

  /** Whatever the reads return, an encoded body decodes to its data, without an
      error, exactly when no read of a chunk's two final bytes is cut short; the
      parts are an initial piece of the data in any case. */
  lemma {:induction false} DecodeEncode(
    grant: (nat, nat) -> nat, chunks: seq<Chunk>, last: Chunk, tail: seq<byte>, bufsize: nat)
    requires forall c :: c in chunks ==> ChunkOk(c, bufsize)
    requires HeaderOk(last.size, last.ext, 0, bufsize)
    ensures Decodes(Decode(grant, Encode(chunks, last, tail), bufsize),
                    EndsWhole(grant, chunks, last, tail), Data(chunks), tail)
  {
    if chunks == [] {
      LastChunkFound(grant, last, tail, bufsize);
    } else {
      var c, more := chunks[0], Encode(chunks[1..], last, tail);
      DecodeEncode(grant, chunks[1..], last, tail, bufsize);
      ChunkThenRest(grant, c, more, bufsize);
      DecodesNext(Decode(grant, Encode(chunks, last, tail), bufsize), Decode(grant, more, bufsize),
                  Given(grant, 2 + |more|, 2) == 2, EndsWhole(grant, chunks[1..], last, tail),
                  c.data, Data(chunks[1..]), tail);
    }
  }

  /** A well-formed body that is refused: a source that returns one byte at a time. */
  lemma SplitEndRefused()
    ensures var one: (nat, nat) -> nat := (left, n) => 1;
      var c, last := Chunk([49], [], [65]), Chunk([48], [], []);
      && ChunkOk(c, 102400) && HeaderOk(last.size, last.ext, 0, 102400)
      && !Decode(one, Encode([c], last, []), 102400).ok
  {
    var one: (nat, nat) -> nat := (left, n) => 1;
    var c, last := Chunk([49], [], [65]), Chunk([48], [], []);
    OneDigit(49, 1);
    OneDigit(48, 0);
    DecodeEncode(one, [c], last, [], 102400);
    assert !EndsWhole(one, [c], last, []);
  }

  lemma OneDigit(b: byte, n: nat)
    requires Digit(b) == Some(n)
    ensures AllDigits([b]) && HexValue([b]) == n
  {
    assert [b][..0] == [];
  }

  /** A source that returns what is asked for never cuts a read short. */
  lemma {:induction false} FullReadsDecode(grant: (nat, nat) -> nat, chunks: seq<Chunk>, last: Chunk, tail: seq<byte>)
    requires forall left, n :: grant(left, n) >= n
    ensures EndsWhole(grant, chunks, last, tail)
  {
    if chunks != [] {
      FullReadsDecode(grant, chunks[1..], last, tail);
    }
  }

  predicate Bounded(parts: seq<seq<byte>>, bufsize: nat) { forall p :: p in parts ==> 0 < |p| <= bufsize }

  lemma {:induction false} DataBounded(grant: (nat, nat) -> nat, rest: seq<byte>, want: nat, bufsize: nat)
    ensures Bounded(ReadData(grant, rest, want, bufsize).parts, bufsize)
    decreases want
  {
    if want > 0 {
      var k := Given(grant, |rest|, if want < bufsize then want else bufsize);
      if k > 0 {
        DataBounded(grant, rest[k..], want - k, bufsize);
        BoundedCons(rest[..k], ReadData(grant, rest[k..], want - k, bufsize).parts, bufsize);
      }
    }
  }

  lemma BoundedCons(part: seq<byte>, parts: seq<seq<byte>>, bufsize: nat)
    requires 0 < |part| <= bufsize && Bounded(parts, bufsize)
    ensures Bounded([part] + parts, bufsize)
  {
  }

  /** For every input, well-formed or not, no part is empty or exceeds the buffer size. */
  lemma {:induction false} PartsBounded(grant: (nat, nat) -> nat, rest: seq<byte>, bufsize: nat)
    ensures Bounded(Decode(grant, rest, bufsize).parts, bufsize)
    decreases |rest|
  {
    var line := NextLine(grant, rest, bufsize);
    var size := SizeOf(line.header);
    if line.ok && size.Some? && size.value != 0 {
      var want := if size.value > 0 then size.value else 0;
      var data := ReadData(grant, line.rest, want, bufsize);
      DataBounded(grant, line.rest, want, bufsize);
      var k := Given(grant, |data.rest|, 2);
      if data.ok && data.rest[..k] == CRLF {
        PartsBounded(grant, data.rest[k..], bufsize);
      }
    }
  }

  /** A chunked request body as the application sees it; None for status 400. */
  method ChunkedBody(input: Input, memfileMax: nat) returns (body: Option<seq<byte>>, isTempFile: bool)
    modifies input
    ensures var d := Decode(input.grant, old(input.rest), memfileMax);
      && body == (if d.ok then Some(Concat(d.parts)) else None)
      && (isTempFile <==> d.ok && |Concat(d.parts)| > memfileMax)
  {
    PartsBounded(input.grant, input.rest, memfileMax);
    var parts, ok := IterChunked(input, memfileMax);
    if !ok {
      return None, false;
    }
    var bytes, spilled := Spill(parts, memfileMax);
    body, isTempFile := Some(bytes), spilled;
  }
}
