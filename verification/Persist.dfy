/** Atomic replacement of a file: the retry loop of `persist::save`, and the single attempt the recovery
    blob, the marker and the face key use, over a file system whose unsynced changes a crash may lose. */
module Persist {
  import opened Faults
  import opened Wrappers

  type Bytes = seq<bv8>
  type Directory = map<string, nat>

  /** A `synced` file has its bytes on the medium; of any other a crash may leave anything. */
  datatype File = File(bytes: Bytes, synced: bool)

  /** `dirs` holds every state of the directory since its last sync, the running one last. */
  datatype Disk = Disk(dirs: seq<Directory>, files: seq<File>) {
    ghost predicate Valid() {
      |dirs| > 0 && forall k, p :: 0 <= k < |dirs| && p in dirs[k] ==> dirs[k][p] < |files|
    }

    function Running(): Directory
      requires |dirs| > 0
    {
      dirs[|dirs| - 1]
    }

    /** What a path holds if a crash keeps directory state `dir` of it. */
    ghost predicate Shows(dir: Directory, path: string, r: Option<Bytes>) {
      if path !in dir then r == None
      else r.Some? && (dir[path] < |files| && files[dir[path]].synced ==> r.value == files[dir[path]].bytes)
    }

    /** What the path may hold after a crash now. */
    ghost predicate MayRead(path: string, r: Option<Bytes>) {
      exists k :: 0 <= k < |dirs| && Shows(dirs[k], path, r)
    }

    function Read(path: string): Option<Bytes>
      requires Valid()
    {
      if path in Running() then Some(files[Running()[path]].bytes) else None
    }
  }

  /** From `d` to `e` nothing a crash or a reader may find at `path` has been added. */
  ghost predicate Untouched(d: Disk, e: Disk, path: string)
    requires d.Valid() && e.Valid()
  {
    && (forall r :: e.MayRead(path, r) ==> d.MayRead(path, r))
    && e.Read(path) == d.Read(path)
  }

  /** From `d` to `e` nothing may be found at `path` but what might be before or the whole of `bytes`. */
  ghost predicate OldOrNew(d: Disk, e: Disk, path: string, bytes: Bytes)
    requires d.Valid() && e.Valid()
  {
    && (forall r :: e.MayRead(path, r) ==> d.MayRead(path, r) || r == Some(bytes))
    && (e.Read(path) == d.Read(path) || e.Read(path) == Some(bytes))
  }

  /** The path holds `bytes`, now and after a crash. */
  ghost predicate Holds(d: Disk, path: string, bytes: Bytes)
    requires d.Valid()
  {
    d.Read(path) == Some(bytes) && forall r :: d.MayRead(path, r) <==> r == Some(bytes)
  }

  /** From `d` to `e` only temporary files of `path` were added: `e` extends `d`, and every file that stood in `d`
      stands in `e` as it was. */
  ghost predicate OnlyTemps(d: Disk, e: Disk, path: string)
    requires d.Valid() && e.Valid()
  {
    && |d.dirs| <= |e.dirs|
    && (forall k :: 0 <= k < |d.dirs| ==> e.dirs[k] == d.dirs[k])
    && (forall k, p :: |d.dirs| <= k < |e.dirs| && p in d.Running() ==> p in e.dirs[k] && e.dirs[k][p] == d.Running()[p])
    && (forall k :: |d.dirs| <= k < |e.dirs| && path !in d.Running() ==> path !in e.dirs[k])
    && |d.files| <= |e.files|
    && (forall i :: 0 <= i < |d.files| ==> e.files[i] == d.files[i])
  }

  lemma OnlyTempsUntouched(d: Disk, e: Disk, path: string, p: string)
    requires d.Valid() && e.Valid() && OnlyTemps(d, e, path)
    requires p == path || p in d.Running()
    ensures Untouched(d, e, p)
  {
    forall r | e.MayRead(p, r) ensures d.MayRead(p, r) {
      var k :| 0 <= k < |e.dirs| && e.Shows(e.dirs[k], p, r);
      var j := if k < |d.dirs| then k else |d.dirs| - 1;
      ShowsTheSame(d, e, d.dirs[j], e.dirs[k], p, r);
    }
  }

  /** A path that leads to the same file, or to none, shows the same. */
  lemma ShowsTheSame(d: Disk, e: Disk, before: Directory, after: Directory, p: string, r: Option<Bytes>)
    requires e.Shows(after, p, r) && (p in after <==> p in before)
    requires p in before ==> after[p] == before[p] < |d.files| <= |e.files| && e.files[before[p]] == d.files[before[p]]
    ensures d.Shows(before, p, r)
  {
  }

  lemma NothingTouched(d: Disk)
    requires d.Valid()
    ensures forall p :: Untouched(d, d, p)
  {
  }

  lemma NothingHeld(d: Disk, path: string, bytes: Bytes)
    requires d.Valid()
    ensures OldOrNew(d, d, path, bytes)
  {
  }

  lemma Composed(d: Disk, e: Disk, f: Disk, path: string, bytes: Bytes)
    requires d.Valid() && e.Valid() && f.Valid()
    ensures forall p :: Untouched(d, e, p) && Untouched(e, f, p) ==> Untouched(d, f, p)
    ensures OldOrNew(d, e, path, bytes) && Untouched(e, f, path) ==> OldOrNew(d, f, path, bytes)
    ensures Untouched(d, e, path) && OldOrNew(e, f, path, bytes) ==> OldOrNew(d, f, path, bytes)
  {
  }

  /** A file whose bytes are all on the medium, under a name of its own. */
  ghost predicate Written(d: Disk, path: string, tmp: string, bytes: Bytes)
    requires d.Valid()
  {
    tmp != path && tmp in d.Running() && d.files[d.Running()[tmp]] == File(bytes, true)
  }

  /** A new file under a new name. */
  function Created(d: Disk, tmp: string, f: File): Disk
    requires |d.dirs| > 0
  {
    Disk(d.dirs + [d.Running()[tmp := |d.files|]], d.files + [f])
  }

  lemma CreatedIsTemp(d: Disk, path: string, tmp: string, f: File)
    requires d.Valid() && tmp != path && tmp !in d.Running()
    ensures Created(d, tmp, f).Valid() && OnlyTemps(d, Created(d, tmp, f), path)
    ensures f.synced ==> Written(Created(d, tmp, f), path, tmp, f.bytes)
  {
  }

  lemma NoTemps(d: Disk, path: string)
    requires d.Valid()
    ensures |d.dirs| > 0 && OnlyTemps(d, d, path)
  {
  }

  function Renamed(d: Disk, from: string, to: string): Disk
    requires |d.dirs| > 0 && from in d.Running()
  {
    d.(dirs := d.dirs + [(d.Running() - {from})[to := d.Running()[from]]])
  }

  function DirSynced(d: Disk): Disk
    requires |d.dirs| > 0
  {
    d.(dirs := [d.Running()])
  }

  /** Over the rename, before and after the directory reaches the medium, the path holds what it held or the
      whole new content; afterwards only the latter. */
  lemma RenameIsAtomic(d: Disk, path: string, tmp: string, bytes: Bytes)
    requires d.Valid() && Written(d, path, tmp, bytes)
    ensures var e := Renamed(d, tmp, path);
            && e.Valid() && OldOrNew(d, e, path, bytes) && DirSynced(e).Valid() && Holds(DirSynced(e), path, bytes)
            && OldOrNew(d, DirSynced(e), path, bytes)
  {
    var e := Renamed(d, tmp, path);
    var n := |d.dirs|;
    assert forall r :: e.Shows(e.dirs[n], path, r) <==> r == Some(bytes);
    forall r | e.MayRead(path, r) ensures d.MayRead(path, r) || r == Some(bytes) {
      var k :| 0 <= k < |e.dirs| && e.Shows(e.dirs[k], path, r);
      assert k < n ==> d.Shows(d.dirs[k], path, r);
    }
    forall r ensures DirSynced(e).MayRead(path, r) <==> r == Some(bytes) {
      assert DirSynced(e).Shows(DirSynced(e).dirs[0], path, r) <==> r == Some(bytes);
    }
  }

  lemma RenameSparesOthers(d: Disk, path: string, tmp: string, p: string)
    requires d.Valid() && tmp in d.Running() && p != path && p != tmp
    ensures Renamed(d, tmp, path).Valid() && Untouched(d, Renamed(d, tmp, path), p)
    ensures DirSynced(Renamed(d, tmp, path)).Valid() && Untouched(d, DirSynced(Renamed(d, tmp, path)), p)
  {
    var e := Renamed(d, tmp, path);
    var n := |d.dirs|;
    forall r | e.MayRead(p, r) ensures d.MayRead(p, r) {
      var k :| 0 <= k < |e.dirs| && e.Shows(e.dirs[k], p, r);
      assert d.Shows(d.dirs[if k < n then k else n - 1], p, r);
    }
    forall r | DirSynced(e).MayRead(p, r) ensures d.MayRead(p, r) {
      assert d.Shows(d.dirs[n - 1], p, r);
    }
  }

  lemma RemovalSparesOthers(d: Disk, tmp: string, p: string)
    requires d.Valid() && p != tmp
    ensures var e := d.(dirs := d.dirs + [d.Running() - {tmp}]); e.Valid() && Untouched(d, e, p)
  {
    var e := d.(dirs := d.dirs + [d.Running() - {tmp}]);
    var n := |d.dirs|;
    forall r | e.MayRead(p, r) ensures d.MayRead(p, r) {
      var k :| 0 <= k < |e.dirs| && e.Shows(e.dirs[k], p, r);
      assert d.Shows(d.dirs[if k < n then k else n - 1], p, r);
    }
  }

  /** What a crash leaves: each path keeps some state of its entry since the last sync of the directory. */
  function Image(d: Disk, kept: string -> nat, torn: nat -> Bytes): Disk
    requires |d.dirs| > 0
  {
    var names := set k, p | 0 <= k < |d.dirs| && p in d.dirs[k] :: p;
    Disk([map p | p in names && p in d.dirs[kept(p) % |d.dirs|] :: d.dirs[kept(p) % |d.dirs|][p]],
      seq(|d.files|, i requires 0 <= i < |d.files| => if d.files[i].synced then d.files[i] else File(torn(i), true)))
  }

  lemma ImageReads(d: Disk, kept: string -> nat, torn: nat -> Bytes)
    requires d.Valid()
    ensures var e := Image(d, kept, torn);
            && e.Valid() && (forall p :: d.MayRead(p, e.Read(p)))
            && (forall p, r :: e.MayRead(p, r) ==> r == e.Read(p))
  {
    var e := Image(d, kept, torn);
    forall p ensures p in e.dirs[0] <==> p in d.dirs[kept(p) % |d.dirs|] {}
    assert e.Valid() && |e.dirs| == 1 && forall i :: 0 <= i < |e.files| ==> e.files[i].synced;
    hide Image;
    assert e.Running() == e.dirs[0];
    forall p ensures d.MayRead(p, e.Read(p)) {
      assert d.Shows(d.dirs[kept(p) % |d.dirs|], p, e.Read(p));
    }
    forall p, r | e.MayRead(p, r) ensures r == e.Read(p) {
      assert e.Shows(e.dirs[0], p, r);
    }
  }

  datatype Attempt = Saved | Collision | Failed

  class Volume {
    const world: nat -> Verdict
    const stamp: nat -> string
    /** After the crash at the given time: the directory state a path keeps, and what an unsynced file holds. */
    const kept: (nat, string) -> nat
    const torn: (nat, nat) -> Bytes
    var disk: Disk
    var now: nat
    var stamps: nat
    var crashed: bool

    ghost predicate Calm(from: nat) {
      forall i: nat :: from <= i ==> world(i).Done?
    }

    constructor (world: nat -> Verdict, stamp: nat -> string, kept: (nat, string) -> nat, torn: (nat, nat) -> Bytes, disk: Disk)
      ensures this.world == world && this.stamp == stamp && this.kept == kept && this.torn == torn
      ensures this.disk == disk && now == 0 && stamps == 0 && !crashed
    {
      this.world, this.stamp, this.kept, this.torn, this.disk := world, stamp, kept, torn, disk;
      now, stamps, crashed := 0, 0, false;
    }

    /** `temp_sibling`, with the clock and the process id as an arbitrary stamp. */
    function Temp(path: string, n: nat): (name: string)
      ensures name != path
    {
      path + ".tmp." + stamp(n)
    }

    method Call() returns (acts: bool, ok: bool)
      modifies `now, `crashed
      ensures now == old(now) + (if old(crashed) then 0 else 1)
      ensures old(crashed) ==> crashed && !acts
      ensures ok ==> acts && !crashed
      ensures !old(crashed) && world(old(now)).Done? ==> ok
    {
      if crashed { return false, false; }
      var v := world(now);
      now := now + 1;
      crashed := Dies(v);
      acts, ok := Lands(v), v.Done?;
    }

    /** `write_new_private`: create exclusively, write, sync. */
    method WriteNew(path: string, tmp: string, bytes: Bytes) returns (a: Attempt)
      requires disk.Valid() && tmp != path
      modifies `disk, `now, `crashed
      ensures disk.Valid() && OnlyTemps(old(disk), disk, path)
      ensures a.Saved? ==> !crashed && tmp !in old(disk).Running() && Written(disk, path, tmp, bytes)
      ensures a.Collision? ==> tmp in old(disk).Running() && disk == old(disk)
      ensures a.Collision? ==> crashed == old(crashed)
      ensures old(Calm(now)) && !old(crashed) ==> !a.Failed?
      ensures now >= old(now)
    {
      hide OnlyTemps, Written, Disk.Valid;
      NoTemps(disk, path);
      if crashed { return Failed; }
      if tmp in disk.Running() { return Collision; }
      var inode := |disk.files|;
      ghost var start := disk;
      forall f { CreatedIsTemp(start, path, tmp, f); }
      var acts, ok := Call();
      if acts {
        disk := disk.(dirs := disk.dirs + [disk.Running()[tmp := inode]], files := disk.files + [File([], false)]);
        assert disk == Created(start, tmp, File([], false));
      }
      if !ok { return Failed; }
      acts, ok := Call();
      if ok {
        disk := disk.(files := disk.files[inode := File(bytes, false)]);
        assert disk == Created(start, tmp, File(bytes, false));
      } else if acts {
        var written: nat :| written <= |bytes|;
        disk := disk.(files := disk.files[inode := File(bytes[..written], false)]);
        assert disk == Created(start, tmp, File(bytes[..written], false));
      }
      if !ok { return Failed; }
      acts, ok := Call();
      if acts {
        disk := disk.(files := disk.files[inode := File(bytes, true)]);
        assert disk == Created(start, tmp, File(bytes, true));
      }
      a := if ok then Saved else Failed;
    }

    /** Rename, then sync of the directory; a failed rename drops the temporary file. */
    method Publish(path: string, tmp: string, ghost bytes: Bytes) returns (ok: bool)
      requires disk.Valid() && Written(disk, path, tmp, bytes) && !crashed
      modifies `disk, `now, `crashed
      ensures disk.Valid()
      ensures OldOrNew(old(disk), disk, path, bytes)
      ensures ok ==> !crashed && Holds(disk, path, bytes)
      ensures forall p :: p != path && p != tmp ==> Untouched(old(disk), disk, p)
      ensures old(Calm(now)) ==> ok
      ensures now >= old(now)
    {
      hide OldOrNew, Holds, Untouched, Renamed, DirSynced;
      RenameIsAtomic(disk, path, tmp, bytes);
      NothingTouched(disk);
      NothingHeld(disk, path, bytes);
      forall p | p != path && p != tmp
        ensures Renamed(disk, tmp, path).Valid() && Untouched(disk, Renamed(disk, tmp, path), p)
        ensures DirSynced(Renamed(disk, tmp, path)).Valid() && Untouched(disk, DirSynced(Renamed(disk, tmp, path)), p)
      {
        RenameSparesOthers(disk, path, tmp, p);
      }
      var acts;
      acts, ok := Call();
      if acts { disk := Renamed(disk, tmp, path); }
      if !ok {
        ghost var d := disk;
        Drop(path, tmp);
        Composed(old(disk), d, disk, path, bytes);
        return;
      }
      acts, ok := Call();
      if acts { disk := DirSynced(disk); }
    }

    method Drop(path: string, tmp: string)
      requires disk.Valid() && tmp != path
      modifies `disk, `now, `crashed
      ensures disk.Valid()
      ensures forall p :: p != tmp ==> Untouched(old(disk), disk, p)
      ensures now >= old(now)
    {
      var acts, _ := Call();
      if acts && tmp in disk.Running() {
        forall p | p != tmp
          ensures disk.(dirs := disk.dirs + [disk.Running() - {tmp}]).Valid()
          ensures Untouched(disk, disk.(dirs := disk.dirs + [disk.Running() - {tmp}]), p)
        {
          RemovalSparesOthers(disk, tmp, p);
        }
        disk := disk.(dirs := disk.dirs + [disk.Running() - {tmp}]);
      }
    }

    /** One attempt under a fresh temporary name. */
    method Replace(path: string, bytes: Bytes) returns (a: Attempt)
      requires disk.Valid()
      modifies `disk, `now, `stamps, `crashed
      ensures disk.Valid() && stamps == old(stamps) + 1
      ensures OldOrNew(old(disk), disk, path, bytes)
      ensures a.Saved? ==> !crashed && Holds(disk, path, bytes)
      ensures forall p :: p != path && p in old(disk).Running() ==> Untouched(old(disk), disk, p)
      ensures a.Collision? ==> disk == old(disk) && crashed == old(crashed)
      ensures a.Collision? ==> Temp(path, old(stamps)) in old(disk).Running()
      ensures a.Saved? ==> Temp(path, old(stamps)) !in old(disk).Running()
      ensures old(Calm(now)) && !old(crashed) ==> !a.Failed?
      ensures now >= old(now)
    {
      hide Written, OnlyTemps, OldOrNew, Untouched, Holds;
      var tmp := Temp(path, stamps);
      stamps := stamps + 1;
      a := WriteNew(path, tmp, bytes);
      ghost var d := disk;
      forall p | p == path || p in old(disk).Running() ensures Untouched(old(disk), d, p) {
        OnlyTempsUntouched(old(disk), d, path, p);
      }
      NothingHeld(old(disk), path, bytes);
      Composed(old(disk), old(disk), d, path, bytes);
      if a.Saved? {
        var ok := Publish(path, tmp, bytes);
        a := if ok then Saved else Failed;
        Composed(old(disk), d, disk, path, bytes);
      }
    }

    /** `save`: wherever it is cut short the path holds what it held or the whole new content; after success it
        holds the new content whatever happens next; no file that stood beside it is touched, so a colliding
        temporary file is never reused; and only sixteen collisions in a row defeat it. */
    method Save(path: string, bytes: Bytes) returns (ok: bool)
      requires disk.Valid()
      modifies `disk, `now, `stamps, `crashed
      ensures disk.Valid() && old(stamps) <= stamps <= old(stamps) + 16
      ensures OldOrNew(old(disk), disk, path, bytes)
      ensures ok ==> !crashed && Holds(disk, path, bytes)
      ensures forall p :: p != path && p in old(disk).Running() ==> Untouched(old(disk), disk, p)
      ensures old(Calm(now)) && !old(crashed) ==>
                (ok <==> exists j :: old(stamps) <= j < old(stamps) + 16 && Temp(path, j) !in old(disk).Running())
      ensures now >= old(now)
    {
      NothingTouched(disk);
      NothingHeld(disk, path, bytes);
      var _, made := Call();
      if !made { return false; }
      var attempt := 0;
      while attempt < 16
        invariant 0 <= attempt <= 16 && stamps == old(stamps) + attempt
        invariant disk == old(disk) && !crashed && now >= old(now)
        invariant forall j :: old(stamps) <= j < stamps ==> Temp(path, j) in disk.Running()
      {
        hide OldOrNew, Holds, Untouched;
        var a := Replace(path, bytes);
        attempt := attempt + 1;
        if !a.Collision? { return a.Saved?; }
      }
      ok := false;
    }

    /** The machine comes back after a crash: every path keeps some state of its entry since the last sync, and
        files whose bytes were not synced hold anything. */
    method Boot()
      requires disk.Valid()
      modifies `disk, `crashed
      ensures disk.Valid() && !crashed
      ensures old(crashed) ==> forall p :: old(disk).MayRead(p, disk.Read(p))
      ensures old(crashed) ==> forall p, r :: disk.MayRead(p, r) ==> r == disk.Read(p)
      ensures !old(crashed) ==> disk == old(disk)
    {
      if crashed {
        var time := now;
        var entry, bytes := (p: string) => kept(time, p), (i: nat) => torn(time, i);
        ImageReads(disk, entry, bytes);
        disk := Image(disk, entry, bytes);
      }
      crashed := false;
    }
  }


  /** The initial content, or the one of save `k - 1`. */
  function Candidate(initial: Option<Bytes>, contents: seq<Bytes>, k: nat): Option<Bytes>
    requires k <= |contents|
  {
    if k == 0 then initial else Some(contents[k - 1])
  }

  /** Over any history of saves, each of which may be cut short by a crash, the path always holds one whole content:
      that of the last successful save or a later one. */
  method SaveAll(v: Volume, path: string, contents: seq<Bytes>) returns (oks: seq<bool>)
    requires v.disk.Valid() && !v.crashed
    requires forall r :: v.disk.MayRead(path, r) ==> r == v.disk.Read(path)
    modifies v`disk, v`now, v`stamps, v`crashed
    ensures v.disk.Valid() && |oks| == |contents|
    ensures forall i :: 0 <= i < |oks| && oks[i] ==>
              exists k :: i < k <= |contents| && v.disk.Read(path) == Candidate(old(v.disk.Read(path)), contents, k)
    ensures exists k :: 0 <= k <= |contents| && v.disk.Read(path) == Candidate(old(v.disk.Read(path)), contents, k)
  {
    ghost var initial := v.disk.Read(path);
    ghost var from := 0;
    assert initial == Candidate(initial, contents, 0);
    oks := [];
    for i := 0 to |contents|
      invariant v.disk.Valid() && !v.crashed && |oks| == i && from <= i
      invariant forall j :: 0 <= j < i && oks[j] ==> j < from
      invariant forall r :: v.disk.MayRead(path, r) ==>
                  exists k :: from <= k <= i && r == Candidate(initial, contents, k)
      invariant exists k :: from <= k <= i && v.disk.Read(path) == Candidate(initial, contents, k)
    {
      var ok := v.Save(path, contents[i]);
      assert Some(contents[i]) == Candidate(initial, contents, i + 1);
      if ok { from := i + 1; }
      v.Boot();
      oks := oks + [ok];
    }
  }
}
