/** Shifting path fragments between SCRIPT_NAME and PATH_INFO. */
module PathShift {

  datatype Shifted = Shifted(script: string, path: string) | AssertionError(empty: string)

  // ----- strip, split and join -----

  function StripLeft(s: string): string { if s != "" && s[0] == '/' then StripLeft(s[1..]) else s }

  function StripRight(s: string): string {
    if s != "" && s[|s| - 1] == '/' then StripRight(s[..|s| - 1]) else s
  }

  function Split(s: string): (segments: seq<string>)
    ensures segments != []
  {
    if s == "" then [""]
    else if s[0] == '/' then [""] + Split(s[1..])
    else
      var rest := Split(s[1..]);
      [[s[0]] + rest[0]] + rest[1..]
  }

  function Join(segments: seq<string>): string {
    if segments == [] then ""
    else if |segments| == 1 then segments[0]
    else segments[0] + "/" + Join(segments[1..])
  }

  predicate EndsWithSlash(s: string) { s != "" && s[|s| - 1] == '/' }

  /** The fragments of a path; interior ones may be empty. */
  function Segments(path: string): seq<string> {
    var segments := Split(StripRight(StripLeft(path)));
    if segments[0] == "" then [] else segments
  }

  // ----- path_shift -----

  function Render(script: seq<string>, path: seq<string>, given: string): Shifted {
    Shifted("/" + Join(script), "/" + Join(path) + if EndsWithSlash(given) && path != [] then "/" else "")
  }

  function PathShift(script: string, path: string, shift: int): Shifted {
    if shift == 0 then Shifted(script, path)
    else
      var pathlist, scriptlist := Segments(path), Segments(script);
      if 0 < shift <= |pathlist| then
        Render(scriptlist + pathlist[..shift], pathlist[shift..], path)
      else if shift < 0 && -shift <= |scriptlist| then
        Render(scriptlist[..|scriptlist| + shift], scriptlist[|scriptlist| + shift..] + pathlist, path)
      else AssertionError(if shift < 0 then "SCRIPT_NAME" else "PATH_INFO")
  }

  // ----- Segments of a joined list -----

  predicate SlashFree(segments: seq<string>) { forall i :: 0 <= i < |segments| ==> '/' !in segments[i] }

  function TrimLeft(segments: seq<string>): seq<string> {
    if segments != [] && segments[0] == "" then TrimLeft(segments[1..]) else segments
  }

  function TrimRight(segments: seq<string>): seq<string> {
    if segments != [] && segments[|segments| - 1] == "" then TrimRight(segments[..|segments| - 1]) else segments
  }

  /** Drops the empty fragments at both ends. */
  function Trim(segments: seq<string>): seq<string> { TrimRight(TrimLeft(segments)) }

  predicate Trimmed(segments: seq<string>) {
    segments == [] || (segments[0] != "" && segments[|segments| - 1] != "")
  }

  lemma {:induction false} TrimLeftIs(segments: seq<string>)
    ensures var t := TrimLeft(segments);
      && (t != [] ==> t[0] != "" && t[|t| - 1] == segments[|segments| - 1]) && |t| <= |segments|
      && (|t| == |segments| ==> t == segments)
      && (SlashFree(segments) ==> SlashFree(t))
  {
    if segments != [] && segments[0] == "" {
      TrimLeftIs(segments[1..]);
    }
  }

  lemma {:induction false} TrimRightIs(segments: seq<string>)
    ensures var t := TrimRight(segments);
      && (t != [] ==> t[|t| - 1] != "" && t[0] == segments[0]) && |t| <= |segments|
      && (|t| == |segments| ==> t == segments)
      && (SlashFree(segments) ==> SlashFree(t))
  {
    if segments != [] && segments[|segments| - 1] == "" {
      TrimRightIs(segments[..|segments| - 1]);
    }
  }

  /** Trimming keeps a list exactly when its ends are not empty, and shortens it otherwise. */
  lemma TrimIs(segments: seq<string>)
    ensures Trimmed(Trim(segments)) && |Trim(segments)| <= |segments|
    ensures Trimmed(segments) <==> Trim(segments) == segments
    ensures |Trim(segments)| == |segments| ==> Trim(segments) == segments
    ensures SlashFree(segments) ==> SlashFree(Trim(segments))
  {
    TrimLeftIs(segments);
    TrimRightIs(TrimLeft(segments));
  }

  lemma {:induction false} SplitFirst(a: string, rest: string)
    requires '/' !in a
    ensures Split(a) == [a]
    ensures Split(a + "/" + rest) == [a] + Split(rest)
  {
    if a == "" {
      assert a + "/" + rest == "/" + rest;
    } else {
      SplitFirst(a[1..], rest);
      assert a == [a[0]] + a[1..];
      assert (a + "/" + rest)[1..] == a[1..] + "/" + rest;
    }
  }

  lemma {:induction false} SplitJoin(segments: seq<string>)
    requires segments != [] && SlashFree(segments)
    ensures Split(Join(segments)) == segments
  {
    if |segments| == 1 {
      SplitFirst(segments[0], "");
    } else {
      SplitJoin(segments[1..]);
      SplitFirst(segments[0], Join(segments[1..]));
    }
  }

  lemma {:induction false} SplitIsSlashFree(s: string)
    ensures SlashFree(Split(s))
  {
    if s != "" {
      SplitIsSlashFree(s[1..]);
    }
  }

  lemma {:induction false} JoinSplit(s: string)
    ensures Join(Split(s)) == s
  {
    if s != "" {
      JoinSplit(s[1..]);
      var rest := Split(s[1..]);
      if s[0] == '/' {
        assert ([""] + rest)[1..] == rest;
      } else {
        assert ([[s[0]] + rest[0]] + rest[1..])[1..] == rest[1..];
        assert s == [s[0]] + s[1..];
      }
    }
  }

  lemma {:induction false} JoinSnoc(segments: seq<string>, last: string)
    requires segments != []
    ensures Join(segments + [last]) == Join(segments) + "/" + last
  {
    if |segments| > 1 {
      JoinSnoc(segments[1..], last);
      assert (segments + [last])[1..] == segments[1..] + [last];
    } else {
      assert (segments + [last])[1..] == [last];
    }
  }

  /** The text of a list, after its first fragment. */
  function AfterFirst(segments: seq<string>): string
    requires segments != []
  {
    if |segments| == 1 then "" else "/" + Join(segments[1..])
  }

  lemma JoinFirst(segments: seq<string>)
    requires segments != []
    ensures Join(segments) == segments[0] + AfterFirst(segments)
  {
    if |segments| == 1 {
      assert segments[0] + "" == segments[0];
    } else {
      assert segments[0] + "/" + Join(segments[1..]) == segments[0] + ("/" + Join(segments[1..]));
    }
  }

  lemma StripLeftStops(a: string, rest: string)
    requires a != "" && '/' !in a
    ensures StripLeft(a + rest) == a + rest
  {
    assert (a + rest)[0] == a[0] && a[0] in a;
  }

  lemma {:induction false} StripLeftJoin(segments: seq<string>)
    requires SlashFree(segments)
    ensures StripLeft(Join(segments)) == Join(TrimLeft(segments))
  {
    if segments != [] {
      JoinFirst(segments);
      if segments[0] == "" {
        StripLeftJoin(segments[1..]);
        if |segments| > 1 {
          assert Join(segments) == "/" + Join(segments[1..]);
          assert Join(segments)[1..] == Join(segments[1..]);
        }
      } else {
        StripLeftStops(segments[0], AfterFirst(segments));
      }
    }
  }

  lemma StripRightStops(rest: string, a: string)
    requires a != "" && '/' !in a
    ensures StripRight(rest + a) == rest + a
  {
    assert (rest + a)[|rest + a| - 1] == a[|a| - 1] && a[|a| - 1] in a;
  }

  lemma StripRightOne(s: string)
    ensures StripRight(s + "/") == StripRight(s)
  {
    assert (s + "/")[..|s|] == s;
  }

  /** The text before a last fragment. */
  function Lead(front: seq<string>): string { if front == [] then "" else Join(front) + "/" }

  lemma JoinLast(front: seq<string>, last: string)
    ensures Join(front + [last]) == Lead(front) + last
  {
    if front == [] {
      assert front + [last] == [last] && Lead(front) + last == last;
    } else {
      JoinSnoc(front, last);
    }
  }

  lemma StripLead(front: seq<string>, last: string)
    requires SlashFree([last])
    ensures StripRight(Lead(front) + last) == if last == "" then StripRight(Join(front)) else Lead(front) + last
  {
    if last == "" {
      assert Lead(front) + last == Lead(front);
      StripRightOne(Join(front));
    } else {
      assert last in [last];
      StripRightStops(Lead(front), last);
    }
  }

  lemma {:induction false} StripRightJoin(segments: seq<string>)
    requires SlashFree(segments)
    ensures StripRight(Join(segments)) == Join(TrimRight(segments))
  {
    if segments != [] {
      var front, last := segments[..|segments| - 1], segments[|segments| - 1];
      assert segments == front + [last];
      JoinLast(front, last);
      StripLead(front, last);
      if last == "" {
        StripRightJoin(front);
      }
    }
  }

  /** Reading back a joined list loses exactly the empty fragments at its ends. */
  lemma SegmentsOfJoin(segments: seq<string>)
    requires SlashFree(segments)
    ensures Segments(Join(segments)) == Trim(segments)
  {
    var left := TrimLeft(segments);
    StripLeftJoin(segments);
    TrimLeftIs(segments);
    StripRightJoin(left);
    TrimIs(segments);
    var t := Trim(segments);
    if t != [] {
      SplitJoin(t);
    }
  }

  lemma StripEnds(s: string)
    ensures Segments("/" + s) == Segments(s) && Segments(s + "/") == Segments(s)
  {
    assert ("/" + s)[1..] == s;
    StripLeftSlash(s);
  }

  lemma {:induction false} StripLeftSlash(s: string)
    ensures StripRight(StripLeft(s + "/")) == StripRight(StripLeft(s))
  {
    if s == "" {
      assert s + "/" == "/";
    } else if s[0] == '/' {
      StripLeftSlash(s[1..]);
      assert (s + "/")[1..] == s[1..] + "/";
    } else {
      assert (s + "/")[..|s|] == s;
    }
  }

  lemma SegmentsAre(path: string)
    ensures Trimmed(Segments(path)) && SlashFree(Segments(path))
  {
    JoinSplit(path);
    SplitIsSlashFree(path);
    SegmentsOfJoin(Split(path));
    TrimIs(Split(path));
  }

  lemma SegmentsOfRender(script: seq<string>, path: seq<string>, given: string)
    requires SlashFree(script) && SlashFree(path)
    ensures Segments(Render(script, path, given).script) == Trim(script)
    ensures Segments(Render(script, path, given).path) == Trim(path)
  {
    SegmentsOfJoin(script);
    SegmentsOfJoin(path);
    StripEnds(Join(script));
    StripEnds(Join(path));
    StripEnds("/" + Join(path));
    var r := Render(script, path, given);
    assert r.path == "/" + Join(path) || r.path == "/" + Join(path) + "/";
  }

  // ----- Shifting lists -----

  datatype Lists = Lists(script: seq<string>, path: seq<string>) {
    function All(): seq<string> { script + path }

    /** The list of all fragments is cut at `cut`. */
    function Cut(cut: nat): Lists
      requires cut <= |All()|
    {
      Lists(All()[..cut], All()[cut..])
    }

    predicate Movable(shift: int) { shift != 0 && 0 <= |script| + shift <= |All()| }

    /** The fragments on either side of the new boundary are not empty. */
    predicate Clean(shift: int)
      requires Movable(shift)
    {
      var cut := |script| + shift;
      (cut == 0 || All()[cut - 1] != "") && (cut == |All()| || All()[cut] != "")
    }

    function Moved(shift: int): Lists
      requires Movable(shift)
    {
      Cut(|script| + shift)
    }

    /** What is read back after writing the lists out. */
    function Reread(): Lists { Lists(Trim(script), Trim(path)) }

    predicate BothTrimmed() { Trimmed(script) && Trimmed(path) }
  }

  /** The outer ends of the whole list are never empty. */
  lemma CleanIsTrimmed(l: Lists, shift: int)
    requires l.BothTrimmed() && l.Movable(shift)
    ensures l.Clean(shift) <==> l.Moved(shift).BothTrimmed()
  {
    var all, m := l.All(), l.Moved(shift);
    assert all != [] ==> all[0] != "" && all[|all| - 1] != "";
    assert m.script != [] ==> m.script[0] == all[0] && m.script[|m.script| - 1] == all[|m.script| - 1];
    assert m.path != [] ==> m.path[0] == all[|m.script|] && m.path[|m.path| - 1] == all[|all| - 1];
  }

  /** Reading back keeps lists that are trimmed and shortens others. */
  lemma RereadIs(l: Lists)
    ensures l.BothTrimmed() <==> l.Reread() == l
    ensures |l.Reread().All()| <= |l.All()|
    ensures !l.BothTrimmed() ==> |l.Reread().All()| < |l.All()|
    ensures l.Reread().BothTrimmed()
  {
    TrimIs(l.script);
    TrimIs(l.path);
  }

  lemma CutAll(l: Lists, cut: nat)
    requires cut <= |l.All()|
    ensures l.Cut(cut).All() == l.All()
    ensures l.Cut(|l.script|) == l
  {
    assert l.All()[..cut] + l.All()[cut..] == l.All();
    assert l.All()[..|l.script|] == l.script && l.All()[|l.script|..] == l.path;
  }

  lemma ListsConserve(l: Lists, shift: int)
    requires l.BothTrimmed() && l.Movable(shift)
    ensures l.Clean(shift) <==> l.Moved(shift).Reread() == l.Moved(shift)
    ensures l.Clean(shift) <==> l.Moved(shift).Reread().All() == l.All()
    ensures !l.Clean(shift) ==> |l.Moved(shift).Reread().All()| < |l.All()|
  {
    CleanIsTrimmed(l, shift);
    RereadIs(l.Moved(shift));
    CutAll(l, |l.script| + shift);
  }

  /** Shifting lists there and back. */
  lemma ListsRoundTrip(l: Lists, shift: int)
    requires l.BothTrimmed() && l.Movable(shift)
    ensures var m := l.Moved(shift).Reread();
      l.Clean(shift) <==> m.Movable(-shift) && m.Moved(-shift).Reread() == l
  {
    var m := l.Moved(shift).Reread();
    ListsConserve(l, shift);
    RereadIs(l);
    if l.Clean(shift) {
      assert |m.script| - shift == |l.script|;
      CutAll(l, |l.script|);
    } else if m.Movable(-shift) {
      RereadIs(m.Moved(-shift));
      CutAll(m, |m.script| - shift);
    }
  }

  // ----- Results -----

  function Parsed(script: string, path: string): Lists { Lists(Segments(script), Segments(path)) }

  /** A successful result whose strings read back as `l`. */
  predicate Reads(r: Shifted, l: Lists) { r.Shifted? && Parsed(r.script, r.path) == l }

  /** A shift succeeds exactly if there are enough fragments, and moves the boundary
      in the list of all fragments. */
  lemma ShiftIs(script: string, path: string, shift: int)
    requires shift != 0
    ensures var l := Parsed(script, path);
      PathShift(script, path, shift) ==
        if l.Movable(shift) then Render(l.Moved(shift).script, l.Moved(shift).path, path)
        else AssertionError(if shift < 0 then "SCRIPT_NAME" else "PATH_INFO")
  {
    var s, p := Segments(script), Segments(path);
    if 0 < shift <= |p| {
      assert (s + p)[..|s| + shift] == s + p[..shift] && (s + p)[|s| + shift..] == p[shift..];
    } else if shift < 0 && -shift <= |s| {
      assert (s + p)[..|s| + shift] == s[..|s| + shift] && (s + p)[|s| + shift..] == s[|s| + shift..] + p;
    }
  }

  lemma ParsedIs(script: string, path: string)
    ensures var l := Parsed(script, path); l.BothTrimmed() && SlashFree(l.script) && SlashFree(l.path)
  {
    SegmentsAre(script);
    SegmentsAre(path);
  }

  lemma RenderReads(l: Lists, given: string)
    requires SlashFree(l.script) && SlashFree(l.path)
    ensures Reads(Render(l.script, l.path, given), l.Reread())
  {
    SegmentsOfRender(l.script, l.path, given);
  }

  lemma MovedSlashFree(l: Lists, shift: int)
    requires SlashFree(l.script) && SlashFree(l.path) && l.Movable(shift)
    ensures SlashFree(l.Moved(shift).script) && SlashFree(l.Moved(shift).path)
  {
    assert SlashFree(l.All());
  }

  /** Reading the strings back drops the empty fragments next to the new boundary. */
  lemma ShiftReads(script: string, path: string, shift: int, l: Lists)
    requires shift != 0 && l == Parsed(script, path)
    ensures ReadsMoved(PathShift(script, path, shift), l, shift)
  {
    ShiftIs(script, path, shift);
    if l.Movable(shift) {
      ParsedIs(script, path);
      MovedSlashFree(l, shift);
      RenderReads(l.Moved(shift), path);
    }
  }

  /** A shift conserves all fragments exactly when none next to the new boundary is
      empty, and shortens the list otherwise. */
  lemma ShiftConserves(script: string, path: string, shift: int, l: Lists, r: Shifted)
    requires l == Parsed(script, path) && l.Movable(shift) && r == PathShift(script, path, shift)
    ensures r.Shifted?
    ensures l.Clean(shift) <==> Parsed(r.script, r.path).All() == l.All()
    ensures !l.Clean(shift) ==> |Parsed(r.script, r.path).All()| < |l.All()|
  {
    ShiftReads(script, path, shift, l);
    ParsedIs(script, path);
    ListsConserve(l, shift);
  }

  function Back(r: Shifted, shift: int): Shifted
    requires r.Shifted?
  {
    PathShift(r.script, r.path, -shift)
  }

  /** `b` is read from a shift of lists that read as `m`. */
  predicate ReadsMoved(b: Shifted, m: Lists, shift: int) {
    if m.Movable(shift) then Reads(b, m.Moved(shift).Reread()) else b.AssertionError?
  }

  lemma BackReads(r: Shifted, shift: int, m: Lists)
    requires shift != 0 && Reads(r, m)
    ensures ReadsMoved(Back(r, shift), m, -shift)
  {
    ShiftReads(r.script, r.path, -shift, m);
  }

  lemma BackRestores(b: Shifted, shift: int, l: Lists)
    requires l.BothTrimmed() && l.Movable(shift) && ReadsMoved(b, l.Moved(shift).Reread(), -shift)
    ensures l.Clean(shift) <==> Reads(b, l)
  {
    var m := l.Moved(shift).Reread();
    ListsRoundTrip(l, shift);
    if m.Movable(-shift) {
      OneReading(b, m.Moved(-shift).Reread(), l);
    }
  }

  lemma OneReading(r: Shifted, l: Lists, l': Lists)
    requires Reads(r, l)
    ensures Reads(r, l') <==> l == l'
  {
  }

  /** Shifting n and then -n restores both lists of fragments under the same condition. */
  lemma RoundTrip(script: string, path: string, shift: int, l: Lists, r: Shifted)
    requires l == Parsed(script, path) && l.Movable(shift) && r == PathShift(script, path, shift)
    ensures r.Shifted? && (l.Clean(shift) <==> Reads(Back(r, shift), l))
  {
    ShiftReads(script, path, shift, l);
    BackReads(r, shift, l.Moved(shift).Reread());
    ParsedIs(script, path);
    BackRestores(Back(r, shift), shift, l);
  }

  /** The form in which path_shift itself writes paths. */
  predicate Canonical(path: string) {
    path == "/" + Join(Segments(path)) + if EndsWithSlash(path) && Segments(path) != [] then "/" else ""
  }

  /** Shifting n and then -n restores the path string exactly when it was canonical
      and the first shift did not move its last fragment away, or it ended with a
      slash; the script string, when it had no slash at its end. */
  lemma StringsRestored(script: string, path: string, shift: int, l: Lists, r: Shifted)
    requires l == Parsed(script, path) && l.Movable(shift) && l.Clean(shift) && r == PathShift(script, path, shift)
    ensures r.Shifted? && Back(r, shift).Shifted?
    ensures Back(r, shift).path == path <==> Canonical(path) && (shift < |l.path| || EndsWithSlash(path))
    ensures Back(r, shift).script == script <==> script == "/" + Join(l.script)
  {
    CleanReads(script, path, shift, l, r);
    BackLists(l, shift);
    BackFrom(r, shift, l.Moved(shift), l);
    ShiftedEnds(script, path, shift, l, r);
    SegmentsAre(path);
    Forms(path, l.script, l.path, r.path, shift < |l.path|);
  }

  lemma CleanReads(script: string, path: string, shift: int, l: Lists, r: Shifted)
    requires l == Parsed(script, path) && l.Movable(shift) && l.Clean(shift) && r == PathShift(script, path, shift)
    ensures Reads(r, l.Moved(shift))
  {
    ParsedIs(script, path);
    ShiftReads(script, path, shift, l);
    ListsConserve(l, shift);
  }

  /** What the second shift writes out. */
  lemma BackFrom(r: Shifted, shift: int, m: Lists, l: Lists)
    requires Reads(r, m) && m.Movable(-shift) && m.Moved(-shift) == l
    ensures Back(r, shift) == Render(l.script, l.path, r.path)
  {
    ShiftIs(r.script, r.path, -shift);
  }

  /** When the written form of `p` is `path`, if `given` ends with a slash unless
      more was left in a path that did not. */
  lemma Forms(path: string, s: seq<string>, p: seq<string>, given: string, more: bool)
    requires p == Segments(path) && SlashFree(p) && Trimmed(p) && (p == [] ==> more)
    requires EndsWithSlash(given) <==> !more || EndsWithSlash(path)
    ensures Render(s, p, given).path == path <==> Canonical(path) && (more || EndsWithSlash(path))
  {
    if p != [] {
      SlashAtEnd(p);
      SlashCases(path, "/" + Join(p), more);
    }
  }

  lemma BackLists(l: Lists, shift: int)
    requires l.Movable(shift)
    ensures l.Moved(shift).Movable(-shift) && l.Moved(shift).Moved(-shift) == l
  {
    CutAll(l, |l.script| + shift);
    CutAll(l, |l.script|);
  }

  lemma ShiftedEnds(script: string, path: string, shift: int, l: Lists, r: Shifted)
    requires l == Parsed(script, path) && l.Movable(shift) && r == PathShift(script, path, shift)
    ensures r.Shifted? && (EndsWithSlash(r.path) <==> shift >= |l.path| || EndsWithSlash(path))
  {
    ParsedIs(script, path);
    ShiftIs(script, path, shift);
    MovedEnd(l, shift);
    EndOfRender(l.Moved(shift).script, l.Moved(shift).path, path);
  }

  lemma MovedEnd(l: Lists, shift: int)
    requires l.BothTrimmed() && SlashFree(l.script) && SlashFree(l.path) && l.Movable(shift)
    ensures var left := l.Moved(shift).path;
      SlashFree(left) && (left != [] ==> left[|left| - 1] != "") && (left == [] <==> shift >= |l.path|)
  {
    MovedSlashFree(l, shift);
    assert l.All() != [] ==> l.All()[|l.All()| - 1] != "";
  }

  lemma EndOfRender(script: seq<string>, left: seq<string>, given: string)
    requires SlashFree(left) && (left != [] ==> left[|left| - 1] != "")
    ensures EndsWithSlash(Render(script, left, given).path) <==> left == [] || EndsWithSlash(given)
  {
    SlashAtEnd(left);
  }

  lemma SlashCases(path: string, x: string, more: bool)
    requires !EndsWithSlash(x)
    ensures path == x + (if !more || EndsWithSlash(path) then "/" else "")
            <==> path == x + (if EndsWithSlash(path) then "/" else "") && (more || EndsWithSlash(path))
  {
    // Both sides say which of the two forms the path has.
    assert x + "" == x && EndsWithSlash(x + "/");
  }

  /** A written path ends with a slash exactly if one was put there, or it is the root. */
  lemma SlashAtEnd(segments: seq<string>)
    requires SlashFree(segments) && (segments != [] ==> segments[|segments| - 1] != "")
    ensures EndsWithSlash("/" + Join(segments)) <==> segments == []
    ensures EndsWithSlash("/" + Join(segments) + "/")
    ensures "/" + Join(segments) + "" == "/" + Join(segments)
  {
    if segments != [] {
      LastChar("/" + Join(segments), segments);
    }
  }

  /** A joined list that ends in a non-empty fragment does not end with a slash. */
  lemma LastChar(text: string, segments: seq<string>)
    requires text == "/" + Join(segments) && segments != [] && segments[|segments| - 1] != "" && SlashFree(segments)
    ensures !EndsWithSlash(text)
  {
    var front, last := segments[..|segments| - 1], segments[|segments| - 1];
    assert segments == front + [last];
    JoinLast(front, last);
    EndOf("/" + Lead(front), last);
    assert text == "/" + Lead(front) + last;
  }

  lemma EndOf(a: string, b: string)
    requires b != "" && '/' !in b
    ensures !EndsWithSlash(a + b)
  {
    assert (a + b)[|a + b| - 1] == b[|b| - 1] && b[|b| - 1] in b;
  }

  /** A fragment is lost: between "a" and "b" stands an empty one. */
  lemma EmptyFragmentLost()
    ensures Parsed("", "/a//b") == Lists([], ["a", "", "b"])
    ensures var r := PathShift("", "/a//b", 1); r.Shifted? && |Parsed(r.script, r.path).All()| < 3
  {
    NoSegments();
    SegmentsOfThree();
    var l := Lists([], ["a", "", "b"]);
    NotClean(l);
    ShiftConserves("", "/a//b", 1, l, PathShift("", "/a//b", 1));
  }

  lemma NotClean(l: Lists)
    requires l == Lists([], ["a", "", "b"])
    ensures |l.All()| == 3 && l.Movable(1) && !l.Clean(1)
  {
    assert l.All() == ["a", "", "b"];
  }

  lemma NoSegments()
    ensures Segments("") == []
  {
  }

  lemma SegmentsOfThree()
    ensures Segments("/a//b") == ["a", "", "b"]
  {
    JoinOfThree();
    SegmentsOfJoin(["a", "", "b"]);
    TrimIs(["a", "", "b"]);
    StripEnds("a//b");
    assert "/" + "a//b" == "/a//b";
  }

  lemma JoinOfThree()
    ensures Join(["a", "", "b"]) == "a//b"
  {
    var l := ["a", "", "b"];
    assert l[1..] == ["", "b"] && l[1..][1..] == ["b"];
    assert Join(["b"]) == "b" && Join(["", "b"]) == "" + "/" + "b";
    assert Join(l) == "a" + "/" + "/b" == "a//b";
  }
}
