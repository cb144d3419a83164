/** Loading plugins and looking one up for a build target. */
module Plugins {
  import opened Basics

  type Name = string

  /** A registered target: a plain string, or a tuple whose items may be None. */
  datatype Key = Plain(s: string) | Tuple(items: seq<Option<string>>)

  /** An entry of an info file's target list; `Bad` ones raise when registered. */
  datatype Target = Good(key: Key) | Bad

  datatype PluginType = MissingType | NotText | Text(t: string)

  /** The `targets` of an info file: a list of targets, a text whose characters
      count as targets of their own, or missing or of another type. */
  datatype Targets = Listing(list: seq<Target>) | Letters(s: string) | NoTargets {
    /** What a loop over them meets, None if there is none. */
    function Items(): Option<seq<Target>> {
      match this
      case Listing(list) => Some(list)
      case Letters(s) => Some(seq(|s|, i requires 0 <= i < |s| => Good(Plain([s[i]]))))
      case NoTargets => None
    }
  }

  /** The parsed info file. A file that cannot be read or parsed counts as one
      without a type. */
  datatype Metadata = Metadata(kind: PluginType, targets: Targets)

  datatype Entry = Loaded(md: Metadata) | Error

  predicate KnownType(k: PluginType) { k.Text? && Upper(k.t) in {"OS", "CLOUD"} }

  // ----- What loading promises, in terms of the files alone -----

  /** The targets up to the first bad one. */
  function GoodKeys(targets: seq<Target>): seq<Key> {
    if targets == [] || targets[0].Bad? then [] else [targets[0].key] + GoodKeys(targets[1..])
  }

  /** What a file tries to register before it ends or raises. */
  function Offered(md: Metadata): seq<Key> {
    if KnownType(md.kind) && md.targets.Items().Some? then GoodKeys(md.targets.Items().value) else []
  }

  datatype File = File(name: Name, md: Metadata)

  function First(log: seq<File>, chosen: File -> bool): Option<Name> {
    if log == [] then None
    else
      var before := First(log[..|log| - 1], chosen);
      if before.Some? then before else if chosen(log[|log| - 1]) then Some(log[|log| - 1].name) else None
  }

  function Offering(key: Key): File -> bool { (f: File) => key in Offered(f.md) }

  /** The first of the loaded files that offers a key. */
  function Owner(log: seq<File>, key: Key): Option<Name> { First(log, Offering(key)) }

  /** The first `p` items of a target, padded with None. */
  function Padded(items: seq<Option<string>>, p: nat): Key
    requires p <= |items|
  {
    Tuple(items[..p] + seq(|items| - p, _ => None))
  }

  /** An owner whose name is not the empty string, which counts as no plugin. */
  function Named(owner: Option<Name>): Option<Name> { if owner == Some("") then None else owner }

  function LongestPrefix(log: seq<File>, items: seq<Option<string>>, p: nat): Option<Name>
    requires p <= |items|
  {
    if p == 0 then None
    else
      var n := Named(Owner(log, Padded(items, p)));
      if n.Some? then n else LongestPrefix(log, items, p - 1)
  }

  datatype Request = AsText(s: string) | AsTuple(items: seq<Option<string>>) | Other

  datatype Answer = Delegate(name: Name) | NoPlugin | ImageFactoryException

  function Lookup(log: seq<File>, r: Request, importable: set<Name>): Answer {
    match r
    case AsText(s) =>
      var n := Named(Owner(log, Tuple([Some(s)])));
      if n.Some? && n.value in importable then Delegate(n.value) else ImageFactoryException
    case AsTuple(items) =>
      var n := LongestPrefix(log, items, |items|);
      if n == None then NoPlugin else if n.value in importable then Delegate(n.value) else ImageFactoryException
    case Other => NoPlugin
  }

  // ----- The plugin manager -----

  class PluginManager {
    var plugins: map<Name, Entry>
    var targets: map<Key, Name>
    /** One list shared by all plugin types. */
    var types: seq<Name>
    /** The files loaded so far, with the metadata that was used for each. */
    ghost var log: seq<File>

    ghost predicate Valid()
      reads this
    {
      forall key {:trigger Get(targets, key)} :: Get(targets, key) == Owner(log, key)
    }

    constructor ()
      ensures Valid() && log == [] && plugins == map[]
    {
      plugins, targets, types, log := map[], map[], [], [];
    }

    /** metadata_for_plugin: known plugins are not read again; an error entry has no type. */
    function MetadataFor(file: File): Metadata
      reads this
    {
      if file.name !in plugins then file.md
      else if plugins[file.name].Error? then Metadata(MissingType, NoTargets)
      else plugins[file.name].md
    }

    method Load(files: seq<File>)
      requires Valid()
      modifies this
      ensures Valid() && |log| == |old(log)| + |files| && old(log) <= log
      ensures forall i :: 0 <= i < |files| ==> log[|old(log)| + i].name == files[i].name
      ensures Fresh(old(plugins), files) ==> log == old(log) + files
    {
      var i := 0;
      while i < |files|
        invariant 0 <= i <= |files| && Valid()
        invariant |log| == |old(log)| + i && old(log) <= log
        invariant forall j :: 0 <= j < i ==> log[|old(log)| + j].name == files[j].name
        invariant forall n :: n in plugins ==> n in old(plugins) || exists j :: 0 <= j < i && files[j].name == n
        invariant Fresh(old(plugins), files) ==> log == old(log) + files[..i]
      {
        LoadFile(files[i]);
        i := i + 1;
      }
      assert files[..i] == files;
    }

    /** One turn of the loop over the info files. A plugin whose targets are all
        well-formed ends up as loaded even if other plugins own some of them. */
    method LoadFile(file: File)
      requires Valid()
      modifies this
      ensures Valid() && log == old(log) + [File(file.name, old(MetadataFor(file)))]
      ensures var md := old(MetadataFor(file));
        plugins == if md.kind.Text? && !KnownType(md.kind) then old(plugins)
                   else old(plugins)[file.name :=
                     if KnownType(md.kind) && AllGood(md.targets.Items()) then Loaded(md) else Error]
      ensures var md := old(MetadataFor(file));
        types == old(types) + if KnownType(md.kind) && AllGood(md.targets.Items()) then [file.name] else []
    {
      var md := MetadataFor(file);
      log := log + [File(file.name, md)];
      OwnerSnoc(old(log), File(file.name, md));
      if md.kind.Text? && !KnownType(md.kind) {
        return;
      }
      if !md.kind.Text? || md.targets.Items() == None {
        plugins := plugins[file.name := Error];
        return;
      }
      var bad := Register(file.name, md.targets.Items().value);
      plugins := plugins[file.name := if bad then Error else Loaded(md)];
      if !bad {
        types := types + [file.name];
      }
    }

    /** The loop over one file's targets; `bad` if it raised. The first
        registration of a target wins. */
    method Register(name: Name, list: seq<Target>) returns (bad: bool)
      modifies this`targets, this`plugins
      ensures Registered(old(targets), targets, name, GoodKeys(list))
      ensures bad <==> Bad in list
      ensures plugins == old(plugins) || plugins == old(plugins)[name := Error]
    {
      var i := 0;
      ghost var keys: seq<Key> := [];
      assert Registered(targets, targets, name, []);
      while i < |list|
        invariant 0 <= i <= |list| && Bad !in list[..i]
        invariant GoodKeys(list) == keys + GoodKeys(list[i..])
        invariant Registered(old(targets), targets, name, keys)
        invariant plugins == old(plugins) || plugins == old(plugins)[name := Error]
      {
        if list[i].Bad? {
          assert keys + [] == keys;
          return true;
        }
        var key := list[i].key;
        RegisteredNext(old(targets), targets, name, keys, key);
        KeysRegroup(keys, key, list, i);
        if key !in targets {
          targets := targets[key := name];
        } else {
          plugins := plugins[name := Error];
        }
        keys := keys + [key];
        i := i + 1;
      }
      assert list[..i] == list && keys + [] == keys;
      bad := false;
    }

    method PluginForTarget(r: Request, importable: set<Name>) returns (answer: Answer)
      requires Valid()
      ensures answer == Lookup(log, r, importable)
    {
      match r
      case AsText(s) =>
        var name := Find(Tuple([Some(s)]));
        if name == None {
          return ImageFactoryException;
        }
        answer := if name.value in importable then Delegate(name.value) else ImageFactoryException;
      case AsTuple(items) =>
        var target := items;
        var index := 1;
        assert items[..|items|] == items;
        while index < |items| + 1
          invariant 1 <= index <= |items| + 1
          invariant Padded(items, |items| + 1 - index) == Tuple(target)
          invariant LongestPrefix(log, items, |items|) == LongestPrefix(log, items, |items| + 1 - index)
        {
          var name := Find(Tuple(target));
          if name == None {
            target := target[|items| - index := None];
            assert target == Padded(items, |items| - index).items;
          } else {
            return if name.value in importable then Delegate(name.value) else ImageFactoryException;
          }
          index := index + 1;
        }
        answer := NoPlugin;
      case Other =>
        answer := NoPlugin;
    }

    /** `self._targets.get(key)`, taken as a truth value. */
    function Find(key: Key): (name: Option<Name>)
      requires Valid()
      reads this
      ensures name == Named(Owner(log, key))
    {
      Named(Get(targets, key))
    }
  }

  /** Files that are all read from disk: different names, none of them known. */
  predicate Fresh(plugins: map<Name, Entry>, files: seq<File>) {
    && (forall i, j :: 0 <= i < j < |files| ==> files[i].name != files[j].name)
    && (forall i :: 0 <= i < |files| ==> files[i].name !in plugins)
  }

  function Get(targets: map<Key, Name>, key: Key): Option<Name> {
    if key in targets then Some(targets[key]) else None
  }

  predicate AllGood(targets: Option<seq<Target>>) { targets.Some? && Bad !in targets.value }

  lemma OwnerSnoc(log: seq<File>, file: File)
    ensures forall key :: Owner(log + [file], key)
              == if Owner(log, key).Some? then Owner(log, key)
                 else if key in Offered(file.md) then Some(file.name) else None
  {
    assert (log + [file])[..|log|] == log;
  }

  /** `after` is `before` with the free ones among `keys` registered to `name`. */
  ghost predicate Registered(before: map<Key, Name>, after: map<Key, Name>, name: Name, keys: seq<Key>) {
    forall key {:trigger Get(after, key)} :: Get(after, key)
      == if Get(before, key).Some? then Get(before, key) else if key in keys then Some(name) else None
  }

  lemma RegisteredNext(before: map<Key, Name>, now: map<Key, Name>, name: Name, keys: seq<Key>, key: Key)
    requires Registered(before, now, name, keys)
    ensures Registered(before, if key in now then now else now[key := name], name, keys + [key])
  {
    var after := if key in now then now else now[key := name];
    forall k
      ensures Get(after, k)
              == if Get(before, k).Some? then Get(before, k) else if k in keys + [key] then Some(name) else None
    {
      assert Get(now, k) == if Get(before, k).Some? then Get(before, k) else if k in keys then Some(name) else None;
    }
  }

  lemma KeysRegroup(keys: seq<Key>, key: Key, list: seq<Target>, i: nat)
    requires i < |list| && list[i] == Good(key)
    ensures keys + GoodKeys(list[i..]) == keys + [key] + GoodKeys(list[i + 1..])
  {
    assert list[i..][1..] == list[i + 1..];
  }

  // ----- Results -----

  /** Later loads never change an existing registration. */
  lemma {:induction false} OwnerKept(log: seq<File>, more: seq<File>, key: Key)
    requires Owner(log, key).Some?
    ensures Owner(log + more, key) == Owner(log, key)
  {
    if more == [] {
      assert log + more == log;
    } else {
      OwnerKept(log, more[..|more| - 1], key);
      assert (log + more)[..|log + more| - 1] == log + more[..|more| - 1];
    }
  }

  lemma {:induction false} NoFirst(log: seq<File>, chosen: File -> bool)
    ensures First(log, chosen) == None <==> forall j :: 0 <= j < |log| ==> !chosen(log[j])
  {
    if log != [] {
      NoFirst(log[..|log| - 1], chosen);
      assert log == log[..|log| - 1] + [log[|log| - 1]];
    }
  }

  lemma {:induction false} FirstIs(log: seq<File>, chosen: File -> bool, i: nat)
    requires i < |log| && chosen(log[i]) && forall j :: 0 <= j < i ==> !chosen(log[j])
    ensures First(log, chosen) == Some(log[i].name)
  {
    if i < |log| - 1 {
      FirstIs(log[..|log| - 1], chosen, i);
    } else {
      NoFirst(log[..|log| - 1], chosen);
    }
  }

  /** The owner of a key is the first loaded file that offers it. */
  lemma FirstOwner(log: seq<File>, key: Key, i: nat)
    requires i < |log| && key in Offered(log[i].md) && forall j :: 0 <= j < i ==> key !in Offered(log[j].md)
    ensures Owner(log, key) == Some(log[i].name)
  {
    FirstIs(log, Offering(key), i);
  }

  lemma NoOwner(log: seq<File>, key: Key)
    ensures Owner(log, key) == None <==> forall j :: 0 <= j < |log| ==> key !in Offered(log[j].md)
  {
    NoFirst(log, Offering(key));
  }

  /** The name found for a tuple is the owner of its longest registered prefix. */
  lemma {:induction false} LongestPrefixIs(log: seq<File>, items: seq<Option<string>>, p: nat, name: Name)
    requires p <= |items|
    ensures LongestPrefix(log, items, p) == Some(name) <==> exists q :: 0 < q <= p && LongestAt(log, items, q, p, name)
    ensures LongestPrefix(log, items, p) == None <==>
              forall q :: 0 < q <= p ==> Named(Owner(log, Padded(items, q))) == None
  {
    if p > 0 {
      LongestPrefixIs(log, items, p - 1, name);
      var here := Named(Owner(log, Padded(items, p)));
      if here.Some? {
        assert LongestAt(log, items, p, p, here.value);
        assert forall q :: 0 < q < p ==> !LongestAt(log, items, q, p, name);
      } else {
        var below: nat := p - 1;
        if q :| 0 < q <= below && LongestAt(log, items, q, below, name) {
          assert LongestAt(log, items, q, p, name);
        }
        if q :| 0 < q <= p && LongestAt(log, items, q, p, name) {
          assert LongestAt(log, items, q, below, name);
        }
      }
    }
  }

  /** Prefix length `q` is registered to `name`, and no longer one up to `p` is registered. */
  predicate LongestAt(log: seq<File>, items: seq<Option<string>>, q: nat, p: nat, name: Name)
    requires q <= p <= |items|
  {
    Named(Owner(log, Padded(items, q))) == Some(name)
    && forall longer :: q < longer <= p ==> Named(Owner(log, Padded(items, longer))) == None
  }

  /** The lookup of a tuple target after loading files: the first loaded plugin
      registered for the longest non-empty prefix, nothing if there is none. */
  lemma TupleLookup(log: seq<File>, items: seq<Option<string>>, importable: set<Name>, name: Name)
    ensures Lookup(log, AsTuple(items), importable) == NoPlugin
            <==> forall q :: 0 < q <= |items| ==> Named(Owner(log, Padded(items, q))) == None
    ensures Lookup(log, AsTuple(items), importable) == Delegate(name)
            <==> name in importable && exists q :: 0 < q <= |items| && LongestAt(log, items, q, |items|, name)
  {
    LongestPrefixIs(log, items, |items|, name);
  }

  function TuplesOnly(targets: seq<Target>): seq<Target> {
    if targets == [] then []
    else (if targets[0].Good? && targets[0].key.Plain? then [] else [targets[0]]) + TuplesOnly(targets[1..])
  }

  function WithoutPlain(log: seq<File>): seq<File> {
    seq(|log|, i requires 0 <= i < |log| =>
      var md := log[i].md;
      File(log[i].name, if md.targets.NoTargets? then md
                        else md.(targets := Listing(TuplesOnly(md.targets.Items().value)))))
  }

  lemma {:induction false} TuplesOnlyKeys(targets: seq<Target>, items: seq<Option<string>>)
    ensures Tuple(items) in GoodKeys(TuplesOnly(targets)) <==> Tuple(items) in GoodKeys(targets)
  {
    if targets != [] {
      TuplesOnlyKeys(targets[1..], items);
      var t := TuplesOnly(targets[1..]);
      if targets[0].Good? && targets[0].key.Plain? {
        assert TuplesOnly(targets) == t;
      } else {
        assert TuplesOnly(targets) == [targets[0]] + t && ([targets[0]] + t)[1..] == t;
      }
    }
  }

  lemma {:induction false} OwnerWithoutPlain(log: seq<File>, items: seq<Option<string>>)
    ensures Owner(WithoutPlain(log), Tuple(items)) == Owner(log, Tuple(items))
  {
    if log != [] {
      var front, last := log[..|log| - 1], log[|log| - 1];
      OwnerWithoutPlain(front, items);
      assert WithoutPlain(log)[..|log| - 1] == WithoutPlain(front);
      if !last.md.targets.NoTargets? {
        TuplesOnlyKeys(last.md.targets.Items().value, items);
      }
    }
  }

  lemma {:induction false} PrefixWithoutPlain(log: seq<File>, items: seq<Option<string>>, p: nat)
    requires p <= |items|
    ensures LongestPrefix(WithoutPlain(log), items, p) == LongestPrefix(log, items, p)
  {
    if p > 0 {
      OwnerWithoutPlain(log, Padded(items, p).items);
      PrefixWithoutPlain(log, items, p - 1);
    }
  }

  /** A target registered as a plain string is never found, not even by a lookup
      of that string: every lookup goes on as if it had not been registered. */
  lemma PlainNeverFound(log: seq<File>, r: Request, importable: set<Name>)
    ensures Lookup(WithoutPlain(log), r, importable) == Lookup(log, r, importable)
  {
    match r
    case AsText(s) => OwnerWithoutPlain(log, [Some(s)]);
    case AsTuple(items) => PrefixWithoutPlain(log, items, |items|);
    case Other =>
  }

  /** Targets given as one text register each of its characters as a plain string. */
  lemma LettersOffered(md: Metadata, key: Key)
    requires KnownType(md.kind) && md.targets.Letters?
    ensures key in Offered(md) <==> exists i :: 0 <= i < |md.targets.s| && key == Plain([md.targets.s[i]])
  {
    var items := md.targets.Items().value;
    AllKeys(items);
    assert forall i :: 0 <= i < |items| ==> items[i].key == Plain([md.targets.s[i]]);
  }

  lemma {:induction false} AllKeys(targets: seq<Target>)
    requires Bad !in targets
    ensures |GoodKeys(targets)| == |targets|
    ensures forall i :: 0 <= i < |targets| ==> targets[i].Good? && GoodKeys(targets)[i] == targets[i].key
  {
    if targets != [] {
      assert targets[0].Good?;
      AllKeys(targets[1..]);
    }
  }

  /** A lookup that fails although its target is registered. */
  lemma PlainExample()
    ensures var file := File("p", Metadata(Text("cloud"), Listing([Good(Plain("x"))])));
      Offered(file.md) == [Plain("x")] && Owner([file], Plain("x")) == Some("p")
      && Lookup([file], AsText("x"), {"p"}) == ImageFactoryException
  {
    var file := File("p", Metadata(Text("cloud"), Listing([Good(Plain("x"))])));
    assert Upper("cloud") == "CLOUD";
    assert [Good(Plain("x"))][1..] == [];
    assert Offered(file.md) == [Plain("x")];
    FirstOwner([file], Plain("x"), 0);
    NoOwner([file], Tuple([Some("x")]));
  }
}
