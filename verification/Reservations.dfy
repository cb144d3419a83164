/** Disk-space accounting and the listen-port rotation of the reservation manager. */
module Reservations {
  import opened Basics

  // ----- Paths and mounts -----

  /** An absolute path by its components; the root is the empty sequence. */
  type Path = seq<string>

  /** The deepest mounted ancestor of a path, the path itself included; the root
      stands in when there is none. */
  function MountOf(points: set<Path>, path: Path): (m: Path)
    ensures m <= path && (m == [] || m in points)
    ensures forall n :: |m| < n <= |path| ==> path[..n] !in points
  {
    if path == [] || path in points then path
    else
      var m := MountOf(points, path[..|path| - 1]);
      assert forall n :: 0 <= n < |path| ==> path[..|path| - 1][..n] == path[..n];
      assert path[..|path|] == path;
      m
  }

  lemma MountOfMount(points: set<Path>, path: Path)
    ensures MountOf(points, MountOf(points, path)) == MountOf(points, path)
  {
  }

  /** `sizes` and `free` are what getsize and statvfs report: a file that is not
      in `sizes` does not exist, and statvfs fails on a path that is not there. */
  datatype World = World(points: set<Path>, sizes: map<Path, int>, free: map<Path, int>, others: set<Path>) {
    predicate Exists(path: Path) { path == [] || path in points || path in sizes || path in others }
  }

  datatype Mount = Mount(minFree: Option<int>, reservations: map<Path, int>)

  // ----- Sums over files -----

  function At(amounts: map<Path, int>, file: Path): int { if file in amounts then amounts[file] else 0 }

  ghost function Total(files: set<Path>, amounts: map<Path, int>): int {
    if files == {} then 0
    else
      var f :| f in files;
      At(amounts, f) + Total(files - {f}, amounts)
  }

  lemma {:induction false} TotalRemove(files: set<Path>, amounts: map<Path, int>, x: Path)
    requires x in files
    ensures Total(files, amounts) == At(amounts, x) + Total(files - {x}, amounts)
  {
    var f :| f in files && Total(files, amounts) == At(amounts, f) + Total(files - {f}, amounts);
    if f != x {
      TotalRemove(files - {f}, amounts, x);
      TotalRemove(files - {x}, amounts, f);
      assert files - {f} - {x} == files - {x} - {f};
    }
  }

  lemma {:induction false} TotalOfSame(files: set<Path>, a: map<Path, int>, b: map<Path, int>)
    requires forall f :: f in files ==> At(a, f) == At(b, f)
    ensures Total(files, a) == Total(files, b)
  {
    if files != {} {
      var f :| f in files;
      TotalRemove(files, a, f);
      TotalRemove(files, b, f);
      TotalOfSame(files - {f}, a, b);
    }
  }

  lemma TotalUpdate(files: set<Path>, a: map<Path, int>, x: Path, v: int)
    requires x in files
    ensures Total(files, a[x := v]) == Total(files, a) - At(a, x) + v
  {
    TotalRemove(files, a, x);
    TotalRemove(files, a[x := v], x);
    TotalOfSame(files - {x}, a, a[x := v]);
  }

  /** How much may still be written to the files before each reaches its reservation. */
  ghost function Unwritten(files: set<Path>, reserved: map<Path, int>, sizes: map<Path, int>): int {
    if files == {} then 0
    else
      var f :| f in files;
      Max0(At(reserved, f) - At(sizes, f)) + Unwritten(files - {f}, reserved, sizes)
  }

  function Max0(n: int): int { if n > 0 then n else 0 }

  /** Unwritten bytes less excess bytes are the difference of the two totals. */
  lemma {:induction false} UnwrittenLessExcess(files: set<Path>, a: map<Path, int>, b: map<Path, int>)
    ensures Unwritten(files, a, b) - Unwritten(files, b, a) == Total(files, a) - Total(files, b)
  {
    if files != {} {
      var f :| f in files;
      UnwrittenRemove(files, a, b, f);
      UnwrittenRemove(files, b, a, f);
      TotalRemove(files, a, f);
      TotalRemove(files, b, f);
      UnwrittenLessExcess(files - {f}, a, b);
    }
  }

  lemma {:induction false} UnwrittenRemove(files: set<Path>, a: map<Path, int>, b: map<Path, int>, x: Path)
    requires x in files
    ensures Unwritten(files, a, b) == Max0(At(a, x) - At(b, x)) + Unwritten(files - {x}, a, b)
  {
    var f :| f in files && Unwritten(files, a, b) == Max0(At(a, f) - At(b, f)) + Unwritten(files - {f}, a, b);
    if f != x {
      UnwrittenRemove(files - {f}, a, b, x);
      UnwrittenRemove(files - {x}, a, b, f);
      assert files - {f} - {x} == files - {x} - {f};
    }
  }

  predicate AllWithin(files: set<Path>, a: map<Path, int>, b: map<Path, int>) {
    forall f :: f in files ==> At(a, f) <= At(b, f)
  }

  lemma {:induction false} UnwrittenZero(files: set<Path>, a: map<Path, int>, b: map<Path, int>)
    ensures Unwritten(files, a, b) >= 0
    ensures Unwritten(files, a, b) == 0 <==> AllWithin(files, a, b)
  {
    if files != {} {
      var f :| f in files;
      UnwrittenRemove(files, a, b, f);
      UnwrittenZero(files - {f}, a, b);
      assert AllWithin(files, a, b) <==> At(a, f) <= At(b, f) && AllWithin(files - {f}, a, b);
    }
  }

  /** What available_space_for_path subtracts for outstanding reservations. */
  ghost function Remaining(mount: Mount, sizes: map<Path, int>): int {
    var files := mount.reservations.Keys;
    Max0(Total(files, mount.reservations) - Total(files, sizes))
  }

  /** The manager nets files that outgrew their reservations against the others:
      its figure is what may still be written exactly when no file is over its
      reservation, or none is under. */
  lemma RemainingExactly(mount: Mount, sizes: map<Path, int>)
    ensures var files, r := mount.reservations.Keys, mount.reservations;
      Remaining(mount, sizes) == Unwritten(files, r, sizes)
      <==> AllWithin(files, sizes, r) || AllWithin(files, r, sizes)
  {
    var files, r := mount.reservations.Keys, mount.reservations;
    UnwrittenLessExcess(files, r, sizes);
    UnwrittenZero(files, r, sizes);
    UnwrittenZero(files, sizes, r);
  }

  // ----- Operations -----

  datatype ReserveOutcome = Reserved | Refused | NoMinimum // the TypeError of `int - None`
  datatype CancelOutcome = Cancelled | NothingToCancel | KeyError | TypeError

  /** The answer for an unwatched mount is None in the source. */
  datatype Space = Unwatched | Bytes(n: int) | NoSuchPath

  ghost function Available(w: World, mounts: map<Path, Mount>, path: Path): Space {
    var m := MountOf(w.points, path);
    if m !in mounts then Unwatched
    else if !w.Exists(path) then NoSuchPath
    else Bytes(At(w.free, m) - Remaining(mounts[m], w.sizes))
  }

  function WithMount(mounts: map<Path, Mount>, m: Path, minFree: Option<int>): map<Path, Mount> {
    if m in mounts then mounts else mounts[m := Mount(minFree, map[])]
  }

  function PutReservation(mounts: map<Path, Mount>, m: Path, file: Path, size: int): map<Path, Mount>
    requires m in mounts
  {
    mounts[m := mounts[m].(reservations := mounts[m].reservations[file := size])]
  }

  /** Whether a reservation is granted, by the space it leaves above the minimum. */
  ghost function Grant(w: World, mounts: map<Path, Mount>, m: Path, size: int): ReserveOutcome
    requires m in mounts
  {
    var min := mounts[m].minFree;
    if min == None then NoMinimum
    else if size < At(w.free, m) - Remaining(mounts[m], w.sizes) - min.value then Reserved
    else Refused
  }

  function Drop(mounts: map<Path, Mount>, m: Path, file: Path): map<Path, Mount> {
    if m in mounts then mounts[m := mounts[m].(reservations := mounts[m].reservations - {file})] else mounts
  }

  const DEFAULT_MINIMUM: int := 21474836480
  const MIN_PORT: nat := 1025
  const MAX_PORT: nat := 65535

  class ReservationManager {
    var defaultMinimum: int
    var mounts: map<Path, Mount>
    var listenPort: nat

    constructor (pid: nat)
      ensures defaultMinimum == DEFAULT_MINIMUM && mounts == map[]
      ensures listenPort == 1025 + pid % 64510 && IsPort(listenPort)
    {
      defaultMinimum, mounts, listenPort := DEFAULT_MINIMUM, map[], MIN_PORT + pid % (MAX_PORT - MIN_PORT);
    }

    method MountForPath(w: World, given: Path) returns (path: Path)
      ensures path == MountOf(w.points, given)
    {
      path := given;
      while path != []
        invariant MountOf(w.points, path) == MountOf(w.points, given)
        decreases |path|
      {
        if path in w.points {
          return;
        }
        path := path[..|path| - 1];
      }
    }

    method AvailableSpaceForPath(w: World, path: Path) returns (space: Space)
      ensures space == Available(w, mounts, path)
    {
      var mountPath := MountForPath(w, path);
      if mountPath !in mounts {
        return Unwatched;
      }
      var reservations := mounts[mountPath].reservations;
      var reservationTotal, consumedTotal, todo := 0, 0, reservations.Keys;
      while todo != {}
        invariant todo <= reservations.Keys
        invariant reservationTotal + Total(todo, reservations) == Total(reservations.Keys, reservations)
        invariant consumedTotal + Total(todo, w.sizes) == Total(reservations.Keys, w.sizes)
        decreases todo
      {
        var f :| f in todo;
        TotalRemove(todo, reservations, f);
        TotalRemove(todo, w.sizes, f);
        reservationTotal := reservationTotal + reservations[f];
        if f in w.sizes {
          consumedTotal := consumedTotal + w.sizes[f];
        }
        todo := todo - {f};
      }
      var remaining := reservationTotal - consumedTotal;
      if !w.Exists(path) {
        return NoSuchPath;
      }
      space := Bytes(At(w.free, mountPath) - if remaining > 0 then remaining else 0);
    }

    method ReserveSpaceForFile(w: World, size: int, file: Path) returns (outcome: ReserveOutcome)
      modifies this`mounts
      ensures var m := MountOf(w.points, file); var known := WithMount(old(mounts), m, Some(defaultMinimum));
        && outcome == Grant(w, known, m, size)
        && mounts == if outcome == Reserved then PutReservation(known, m, file, size) else known
    {
      var mountPath := MountForPath(w, file);
      MountOfMount(w.points, file);
      if mountPath !in mounts {
        mounts := mounts[mountPath := Mount(Some(defaultMinimum), map[])];
      }
      var mount := mounts[mountPath];
      var space := AvailableSpaceForPath(w, mountPath);
      if mount.minFree == None {
        return NoMinimum;
      }
      if size < space.n - mount.minFree.value {
        mounts := mounts[mountPath := mount.(reservations := mount.reservations[file := size])];
        outcome := Reserved;
      } else {
        outcome := Refused;
      }
    }

    method CancelReservationForFile(w: World, file: Path, quiet: bool) returns (outcome: CancelOutcome)
      modifies this`mounts
      ensures var m := MountOf(w.points, file);
        && mounts == Drop(old(mounts), m, file)
        && outcome == if m in old(mounts) && file in old(mounts)[m].reservations then Cancelled
                      else if quiet then NothingToCancel
                      else if m in old(mounts) then KeyError else TypeError
    {
      var mountPath := MountForPath(w, file);
      if mountPath !in mounts {
        return if quiet then NothingToCancel else TypeError;
      }
      var mount := mounts[mountPath];
      if file !in mount.reservations {
        assert mount.reservations - {file} == mount.reservations;
        assert mounts[mountPath := mount] == mounts;
        return if quiet then NothingToCancel else KeyError;
      }
      mounts := mounts[mountPath := mount.(reservations := mount.reservations - {file})];
      outcome := Cancelled;
    }

    method AddPath(w: World, path: Path, minFree: Option<int>)
      modifies this`mounts
      ensures mounts == WithMount(old(mounts), MountOf(w.points, path), minFree)
    {
      var mountPath := MountForPath(w, path);
      if mountPath !in mounts {
        mounts := mounts[mountPath := Mount(minFree, map[])];
      }
    }

    /** `raised` is the KeyError of an unwatched path. */
    method RemovePath(w: World, path: Path, quiet: bool) returns (raised: bool)
      modifies this`mounts
      ensures mounts == old(mounts) - {MountOf(w.points, path)}
      ensures raised == (!quiet && MountOf(w.points, path) !in old(mounts))
    {
      var mountPath := MountForPath(w, path);
      raised := mountPath !in mounts && !quiet;
      mounts := mounts - {mountPath};
    }

    method GetNextListenPort() returns (port: nat)
      requires IsPort(listenPort)
      modifies this`listenPort
      ensures port == listenPort == NextPort(old(listenPort)) && IsPort(port)
    {
      listenPort := listenPort + 1;
      if listenPort > MAX_PORT {
        listenPort := MIN_PORT;
      }
      port := listenPort;
    }
  }

  // ----- The space promise -----

  datatype Event =
    | Reserve(size: int, file: Path)   // by a caller that asks for at least the file's current size
    | Cancel(file: Path)
    | Write(file: Path, n: nat)        // appends within the file's reservation
    | Watch(path: Path, minFree: Option<int>)
    | Unwatch(path: Path)

  datatype Disk = Disk(world: World, mounts: map<Path, Mount>, defaultMinimum: int) {
    function MountAt(path: Path): Path { MountOf(world.points, path) }
  }

  ghost function Step(d: Disk, e: Event): Option<Disk> {
    match e
    case Reserve(size, file) =>
      var m := d.MountAt(file);
      var known := WithMount(d.mounts, m, Some(d.defaultMinimum));
      if size < At(d.world.sizes, file) then None
      else
        Some(d.(mounts :=
          if Grant(d.world, known, m, size) == Reserved then PutReservation(known, m, file, size) else known))
    case Cancel(file) => Some(d.(mounts := Drop(d.mounts, d.MountAt(file), file)))
    case Write(file, n) =>
      var m := d.MountAt(file);
      if m in d.mounts && file in d.mounts[m].reservations
         && At(d.world.sizes, file) + n <= d.mounts[m].reservations[file]
      then Some(d.(world := Written(d.world, m, file, n)))
      else None
    case Watch(path, minFree) => Some(d.(mounts := WithMount(d.mounts, d.MountAt(path), minFree)))
    case Unwatch(path) => Some(d.(mounts := d.mounts - {d.MountAt(path)}))
  }

  function Written(w: World, m: Path, file: Path, n: nat): World {
    w.(sizes := w.sizes[file := At(w.sizes, file) + n], free := w.free[m := At(w.free, m) - n])
  }

  ghost function Run(d: Disk, events: seq<Event>): Option<Disk> {
    if events == [] then Some(d)
    else
      var before := Run(d, events[..|events| - 1]);
      if before.None? then None else Step(before.value, events[|events| - 1])
  }

  /** Even when every reservation on mount `m` is used up, `min` bytes are free. */
  ghost predicate Promise(d: Disk, m: Path, min: int) {
    && m in d.mounts && d.mounts[m].minFree == Some(min)
    && (forall f :: f in d.mounts[m].reservations ==> d.MountAt(f) == m)
    && AllWithin(d.mounts[m].reservations.Keys, d.world.sizes, d.mounts[m].reservations)
    && (forall f :: f in d.world.sizes ==> d.world.sizes[f] >= 0)
    && min <= At(d.world.free, m) - Owed(d, m)
  }

  /** What the holders of reservations on `m` may still write. */
  ghost function Owed(d: Disk, m: Path): int
    requires m in d.mounts
  {
    Total(d.mounts[m].reservations.Keys, d.mounts[m].reservations) - Total(d.mounts[m].reservations.Keys, d.world.sizes)
  }

  lemma OwedIsUnwritten(d: Disk, m: Path, min: int)
    requires Promise(d, m, min)
    ensures Owed(d, m) == Unwritten(d.mounts[m].reservations.Keys, d.mounts[m].reservations, d.world.sizes)
    ensures 0 <= Owed(d, m) == Remaining(d.mounts[m], d.world.sizes)
  {
    var files, r := d.mounts[m].reservations.Keys, d.mounts[m].reservations;
    UnwrittenLessExcess(files, r, d.world.sizes);
    UnwrittenZero(files, r, d.world.sizes);
    UnwrittenZero(files, d.world.sizes, r);
  }

  lemma ReserveKeepsPromise(d: Disk, size: int, file: Path, d': Disk, m: Path, min: int)
    requires Promise(d, m, min) && d.MountAt(file) == m && Step(d, Reserve(size, file)) == Some(d')
    ensures Promise(d', m, min)
  {
    OwedIsUnwritten(d, m, min);
    if Grant(d.world, d.mounts, m, size) == Reserved {
      var r, r' := d.mounts[m].reservations, d'.mounts[m].reservations;
      var others := r'.Keys - {file};
      TotalRemove(r'.Keys, r', file);
      TotalRemove(r'.Keys, d.world.sizes, file);
      TotalOfSame(others, r, r');
      if file in r {
        assert r.Keys == r'.Keys;
        TotalRemove(r.Keys, r, file);
      } else {
        assert others == r.Keys;
      }
    }
  }

  lemma CancelKeepsPromise(d: Disk, file: Path, d': Disk, m: Path, min: int)
    requires Promise(d, m, min) && d.MountAt(file) == m && Step(d, Cancel(file)) == Some(d')
    ensures Promise(d', m, min)
  {
    var r, r' := d.mounts[m].reservations, d'.mounts[m].reservations;
    if file in r {
      TotalRemove(r.Keys, r, file);
      TotalRemove(r.Keys, d.world.sizes, file);
      assert r'.Keys == r.Keys - {file};
      TotalOfSame(r'.Keys, r, r');
    } else {
      assert r' == r;
    }
  }

  lemma WriteKeepsPromise(d: Disk, file: Path, n: nat, d': Disk, m: Path, min: int)
    requires Promise(d, m, min) && d.MountAt(file) == m && Step(d, Write(file, n)) == Some(d')
    ensures Promise(d', m, min)
  {
    var files := d.mounts[m].reservations.Keys;
    TotalUpdate(files, d.world.sizes, file, At(d.world.sizes, file) + n);
  }

  /** A write inside a reservation leaves what the manager reports as available
      unchanged exactly if the written bytes are part of what it still counts as
      owed on the mount. */
  lemma WriteKeepsAvailable(d: Disk, file: Path, n: nat, d': Disk)
    requires Step(d, Write(file, n)) == Some(d')
    ensures var m := d.MountAt(file);
      m in d.mounts
      && (Available(d'.world, d'.mounts, m) == Available(d.world, d.mounts, m) <==> n == 0 || n <= Owed(d, m))
  {
    var m := d.MountAt(file);
    MountOfMount(d.world.points, file);
    TotalUpdate(d.mounts[m].reservations.Keys, d.world.sizes, file, At(d.world.sizes, file) + n);
  }

  /** ... which holds whenever no file on the mount is over its reservation. */
  lemma WithinKeepsAvailable(d: Disk, file: Path, n: nat, d': Disk)
    requires Step(d, Write(file, n)) == Some(d')
    requires var r := d.mounts[d.MountAt(file)].reservations; AllWithin(r.Keys, d.world.sizes, r)
    ensures var m := d.MountAt(file); Available(d'.world, d'.mounts, m) == Available(d.world, d.mounts, m)
  {
    var m := d.MountAt(file);
    var r := d.mounts[m].reservations;
    var others := r.Keys - {file};
    TotalRemove(r.Keys, r, file);
    TotalRemove(r.Keys, d.world.sizes, file);
    UnwrittenLessExcess(others, r, d.world.sizes);
    UnwrittenZero(others, r, d.world.sizes);
    UnwrittenZero(others, d.world.sizes, r);
    assert n <= Owed(d, m);
    WriteKeepsAvailable(d, file, n, d');
  }

  /** Steps on other mounts. */
  lemma ElsewhereKeepsPromise(d: Disk, e: Event, d': Disk, m: Path, min: int)
    requires Promise(d, m, min) && Step(d, e) == Some(d') && d.MountAt(EventPath(e)) != m
    ensures Promise(d', m, min)
  {
    if e.Write? {
      TotalOfSame(d.mounts[m].reservations.Keys, d.world.sizes, d'.world.sizes);
    }
  }

  lemma StepKeepsPromise(d: Disk, e: Event, d': Disk, m: Path, min: int)
    requires Promise(d, m, min) && Step(d, e) == Some(d') && (e.Unwatch? ==> d.MountAt(e.path) != m)
    ensures Promise(d', m, min)
  {
    if d.MountAt(EventPath(e)) != m {
      ElsewhereKeepsPromise(d, e, d', m, min);
    } else {
      match e
      case Reserve(size, file) => ReserveKeepsPromise(d, size, file, d', m, min);
      case Cancel(file) => CancelKeepsPromise(d, file, d', m, min);
      case Write(file, n) => WriteKeepsPromise(d, file, n, d', m, min);
      case Watch(_, _) =>
    }
  }

  /** What holds of mount `m` along a run that started with `free` bytes on it and
      nothing reserved. */
  ghost predicate Course(d: Disk, m: Path, free: int) {
    && (forall f :: f in d.world.sizes ==> d.world.sizes[f] >= 0)
    && if m !in d.mounts then At(d.world.free, m) == free
       else if d.mounts[m].minFree == None then d.mounts[m].reservations == map[] && At(d.world.free, m) == free
       else d.mounts[m].minFree.value <= free ==> Promise(d, m, d.mounts[m].minFree.value)
  }

  lemma OtherMount(d: Disk, e: Event, d': Disk, m: Path)
    requires Step(d, e) == Some(d') && d.MountAt(EventPath(e)) != m
    ensures m in d'.mounts <==> m in d.mounts
    ensures m in d.mounts ==> d'.mounts[m] == d.mounts[m]
    ensures At(d'.world.free, m) == At(d.world.free, m)
  {
  }

  lemma SizesKept(d: Disk, e: Event, d': Disk)
    requires Step(d, e) == Some(d') && forall f :: f in d.world.sizes ==> d.world.sizes[f] >= 0
    ensures d'.world.points == d.world.points && forall f :: f in d'.world.sizes ==> d'.world.sizes[f] >= 0
  {
  }

  lemma FirstPromise(d: Disk, m: Path, min: int)
    requires m in d.mounts && d.mounts[m] == Mount(Some(min), map[]) && min <= At(d.world.free, m)
    requires forall f :: f in d.world.sizes ==> d.world.sizes[f] >= 0
    ensures Promise(d, m, min)
  {
    assert d.mounts[m].reservations.Keys == {};
  }

  /** The first watch of a mount, be it by a reservation. */
  lemma WatchStarts(d: Disk, e: Event, d': Disk, m: Path, free: int)
    requires Course(d, m, free) && m !in d.mounts && Step(d, e) == Some(d')
    requires d.MountAt(EventPath(e)) == m && (e.Watch? || e.Reserve?)
    ensures Course(d', m, free)
  {
    SizesKept(d, e, d');
    var minFree := if e.Watch? then e.minFree else Some(d.defaultMinimum);
    var watched := d.(mounts := WithMount(d.mounts, m, minFree));
    if minFree.Some? && minFree.value <= free {
      FirstPromise(watched, m, minFree.value);
    }
    if e.Reserve? && d.defaultMinimum <= free {
      ReserveKeepsPromise(watched, e.size, e.file, d', m, d.defaultMinimum);
    }
  }

  /** The path that an event is about. */
  function EventPath(e: Event): Path { if e.Watch? || e.Unwatch? then e.path else e.file }

  lemma NoMinimumStays(d: Disk, e: Event, d': Disk, m: Path, free: int)
    requires Course(d, m, free) && m in d.mounts && d.mounts[m].minFree == None && Step(d, e) == Some(d')
    requires d.MountAt(EventPath(e)) == m && !e.Unwatch?
    ensures Course(d', m, free)
  {
    SizesKept(d, e, d');
    if e.Cancel? {
      assert d.mounts[m].reservations - {e.file} == map[];
    }
  }

  lemma PromisedStays(d: Disk, e: Event, d': Disk, m: Path, free: int)
    requires Course(d, m, free) && m in d.mounts && d.mounts[m].minFree.Some? && Step(d, e) == Some(d')
    requires e.Unwatch? ==> d.MountAt(e.path) != m
    ensures Course(d', m, free)
  {
    SizesKept(d, e, d');
    MinimumKept(d, e, d', m);
    if d.mounts[m].minFree.value <= free {
      StepKeepsPromise(d, e, d', m, d.mounts[m].minFree.value);
    }
  }

  lemma MinimumKept(d: Disk, e: Event, d': Disk, m: Path)
    requires m in d.mounts && Step(d, e) == Some(d') && (e.Unwatch? ==> d.MountAt(e.path) != m)
    ensures m in d'.mounts && d'.mounts[m].minFree == d.mounts[m].minFree
  {
  }

  lemma StepKeepsCourse(d: Disk, e: Event, d': Disk, m: Path, free: int)
    requires Course(d, m, free) && Step(d, e) == Some(d') && (e.Unwatch? ==> d.MountAt(e.path) != m)
    ensures Course(d', m, free)
  {
    if m in d.mounts && d.mounts[m].minFree.Some? {
      PromisedStays(d, e, d', m, free);
    } else if d.MountAt(EventPath(e)) != m {
      OtherMount(d, e, d', m);
      SizesKept(d, e, d');
    } else if m in d.mounts {
      NoMinimumStays(d, e, d', m, free);
    } else if e.Watch? || e.Reserve? {
      WatchStarts(d, e, d', m, free);
    }
  }

  lemma {:induction false} RunKeepsCourse(d: Disk, events: seq<Event>, m: Path, free: int)
    requires Course(d, m, free) && Run(d, events).Some?
    requires forall i :: 0 <= i < |events| && events[i].Unwatch? ==> d.MountAt(events[i].path) != m
    ensures Course(Run(d, events).value, m, free) && Run(d, events).value.world.points == d.world.points
  {
    if events != [] {
      var before := events[..|events| - 1];
      RunKeepsCourse(d, before, m, free);
      StepKeepsCourse(Run(d, before).value, events[|events| - 1], Run(d, events).value, m, free);
      SizesKept(Run(d, before).value, events[|events| - 1], Run(d, events).value);
    }
  }

  /** The promise over whole runs: a mount on which nothing is reserved at first,
      watched or not, keeps its minimum free if it has it then, whenever and however
      it comes to be watched; and whatever the holders of reservations may still
      write fits above the minimum. */
  lemma SpacePromise(d: Disk, events: seq<Event>, m: Path, d': Disk)
    requires m in d.mounts ==> d.mounts[m].reservations == map[]
    requires forall f :: f in d.world.sizes ==> d.world.sizes[f] >= 0
    requires forall i :: 0 <= i < |events| && events[i].Unwatch? ==> d.MountAt(events[i].path) != m
    requires Run(d, events) == Some(d')
    requires m in d'.mounts && d'.mounts[m].minFree.Some? && d'.mounts[m].minFree.value <= At(d.world.free, m)
    ensures var min, r := d'.mounts[m].minFree.value, d'.mounts[m].reservations;
      min <= At(d'.world.free, m) && min <= At(d'.world.free, m) - Unwritten(r.Keys, r, d'.world.sizes)
  {
    var free := At(d.world.free, m);
    if m in d.mounts && d.mounts[m].minFree.Some? && d.mounts[m].minFree.value <= free {
      FirstPromise(d, m, d.mounts[m].minFree.value);
    }
    RunKeepsCourse(d, events, m, free);
    OwedIsUnwritten(d', m, d'.mounts[m].minFree.value);
  }

  /** The mount is removed and watched again. */
  ghost function Rewatched(d: Disk, path: Path, min: int): Option<Disk> {
    Run(d, [Unwatch(path), Watch(path, Some(min))])
  }

  lemma RewatchedIs(d: Disk, path: Path, min: int)
    ensures Rewatched(d, path, min) == Some(d.(mounts := d.mounts[d.MountAt(path) := Mount(Some(min), map[])]))
  {
    var m, events := d.MountAt(path), [Unwatch(path), Watch(path, Some(min))];
    assert events[..1] == [Unwatch(path)] && events[..0] == [] && [Unwatch(path)][..0] == [];
    assert Run(d, [Unwatch(path)]) == Some(d.(mounts := d.mounts - {m}));
    assert (d.mounts - {m})[m := Mount(Some(min), map[])] == d.mounts[m := Mount(Some(min), map[])];
  }

  /** Removing a mount forgets its reservations. When it is watched again, each
      first reservation granted for a new file leaves the minimum free, even if the
      holders of the forgotten ones write all that they still may, exactly if that
      is one byte at most. */
  lemma RewatchExactly(d: Disk, path: Path, m: Path, min: int, d': Disk)
    requires Promise(d, m, min) && d.MountAt(path) == m && Rewatched(d, path, min) == Some(d')
    ensures m in d'.mounts && d'.world == d.world
    ensures (forall size: nat :: Grant(d'.world, d'.mounts, m, size) == Reserved ==>
              min <= At(d.world.free, m) - Owed(d, m) - size) <==> Owed(d, m) <= 1
  {
    RewatchedIs(d, path, min);
    OwedIsUnwritten(d, m, min);
    var slack := At(d.world.free, m) - min;
    assert d'.mounts[m].reservations.Keys == {};
    assert forall size: nat :: Grant(d'.world, d'.mounts, m, size) == Reserved <==> size < slack;
    if Owed(d, m) > 1 {
      assert Grant(d'.world, d'.mounts, m, slack - 1) == Reserved;
    }
  }

  /** Without the callers' part the promise fails: a reservation below the file's
      current size hides what another holder may still write. */
  lemma OutgrownHidesOwed()
    ensures var r: map<Path, int> := map[["a"] := 10, ["b"] := 0]; var sizes: map<Path, int> := map[["b"] := 10];
      Remaining(Mount(Some(0), r), sizes) == 0 && Unwritten(r.Keys, r, sizes) == 10
  {
    var r: map<Path, int> := map[["a"] := 10, ["b"] := 0];
    var sizes: map<Path, int> := map[["b"] := 10];
    TotalRemove(r.Keys, r, ["a"]);
    TotalRemove(r.Keys, sizes, ["a"]);
    UnwrittenRemove(r.Keys, r, sizes, ["a"]);
    assert ["b"] != ["a"];
    assert r.Keys - {["a"]} == {["b"]};
    TotalRemove({["b"]}, r, ["b"]);
    TotalRemove({["b"]}, sizes, ["b"]);
    UnwrittenRemove({["b"]}, r, sizes, ["b"]);
  }

  /** Cancelling undoes a reservation of a file that had none. */
  lemma CancelUndoesReserve(d: Disk, size: int, file: Path, d': Disk)
    requires Step(d, Reserve(size, file)) == Some(d') && d.MountAt(file) in d.mounts
    requires file !in d.mounts[d.MountAt(file)].reservations
    ensures Step(d', Cancel(file)) == Some(d)
  {
    var m := d.MountAt(file);
    var r := d.mounts[m].reservations;
    assert r - {file} == r && r[file := size] - {file} == r;
    assert Drop(d'.mounts, m, file) == d.mounts;
  }

  // ----- Port rotation -----

  predicate IsPort(port: nat) { 1025 <= port <= 65535 }

  function NextPort(port: nat): nat { if port + 1 > MAX_PORT then MIN_PORT else port + 1 }

  /** What the k-th call returns, counting from one. */
  function NthPort(start: nat, k: nat): nat { if k == 0 then start else NextPort(NthPort(start, k - 1)) }

  lemma {:induction false} NthPortIs(start: nat, k: nat)
    requires IsPort(start)
    ensures NthPort(start, k) == 1025 + (start - 1025 + k) % 64511
    ensures IsPort(NthPort(start, k))
  {
    if k > 0 {
      NthPortIs(start, k - 1);
    }
  }

  /** Fewer than 64511 calls later the port is that much further, at most once
      around. */
  lemma {:induction false} PortLater(start: nat, k: nat, d: nat)
    requires IsPort(start) && d < 64511
    ensures IsPort(NthPort(start, k))
    ensures NthPort(start, k + d) == NthPort(start, k) + if NthPort(start, k) + d <= 65535 then d else d - 64511
  {
    NthPortIs(start, k);
    if d > 0 {
      PortLater(start, k, d - 1);
    }
  }

  /** Any 64511 consecutive calls return each port of the range exactly once. */
  lemma PortsCoverRange(start: nat, first: nat, port: nat)
    requires IsPort(start) && IsPort(port)
    ensures exists k :: first <= k < first + 64511 && NthPort(start, k) == port
    ensures forall j, k :: (first <= j < k < first + 64511 && NthPort(start, j) == port ==> NthPort(start, k) != port)
  {
    PortLater(start, first, 0);
    var here := NthPort(start, first);
    var ahead := if here <= port then port - here else port - here + 64511;
    PortLater(start, first, ahead);
    assert NthPort(start, first + ahead) == port;
    forall j, k | first <= j < k < first + 64511
      ensures NthPort(start, j) != NthPort(start, k)
    {
      PortLater(start, j, k - j);
    }
  }
}
