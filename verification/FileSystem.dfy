/** A file system that can lose power, and the crash-safe write on top of it.

    Per path the model knows what a process sees now and what a crash may bring back: every entry
    the path had since its directory was last synced. Contents that were not synced are arbitrary
    after a crash. Entries survive or vanish independently of each other, which is weaker than real
    file systems. Directories are durable once created; a removed one may come back. A power loss may
    happen before every operation. */
module FileSystem {
  import opened Wrappers

  /** A path is the sequence of its components. */
  type Path = seq<string>

  datatype File<D> = File(doc: D, synced: bool)

  datatype Fs<D(==)> = Fs(
    now: map<Path, File<D>>,
    older: map<Path, set<Option<File<D>>>>,
    dirs: set<Path>,
    gone: set<Path>)

  datatype Outcome = Done | Failed | PowerLoss

  function Look<D(==)>(fs: Fs<D>, p: Path): Option<File<D>> {
    if p in fs.now then Some(fs.now[p]) else None
  }

  /** The entries a crash may leave at `p`. */
  function Possible<D(==)>(fs: Fs<D>, p: Path): set<Option<File<D>>> {
    (if p in fs.older then fs.older[p] else {}) + {Look(fs, p)}
  }

  function DocAt<D(==)>(fs: Fs<D>, p: Path): Option<D> {
    if p in fs.now then Some(fs.now[p].doc) else None
  }

  function Parent(p: Path): Path
    requires p != []
  {
    p[..|p| - 1]
  }

  predicate InDir(p: Path, dir: Path) {
    p != [] && Parent(p) == dir
  }

  // ---- crashes ----

  /** What may become of entry `o`: a synced file keeps its contents, another file keeps none. */
  predicate Survives<D(==)>(o: Option<File<D>>, r: Option<File<D>>) {
    match o
    case None => r.None?
    case Some(f) => r.Some? && r.value.synced && (f.synced ==> r.value.doc == f.doc)
  }

  predicate CrashedAt<D(==)>(a: Fs<D>, b: Fs<D>, p: Path) {
    && Possible(b, p) == {Look(b, p)}
    && exists o :: o in Possible(a, p) && Survives(o, Look(b, p))
  }

  /** `b` is what a restart may find after power was lost in state `a`. */
  ghost predicate Crashed<D>(a: Fs<D>, b: Fs<D>) {
    a.dirs <= b.dirs <= a.dirs + a.gone && b.gone == {} && forall p :: CrashedAt(a, b, p)
  }

  /** Every file that may be found at `p` is complete. */
  ghost predicate Clean<D>(fs: Fs<D>, p: Path) {
    forall o :: o in Possible(fs, p) && o.Some? ==> o.value.synced
  }

  /** The visible entry is the same and nothing new may come back. */
  ghost predicate Kept<D>(a: Fs<D>, b: Fs<D>, p: Path) {
    Look(b, p) == Look(a, p) && Possible(b, p) <= Possible(a, p)
  }

  // ---- the effect of single operations ----

  /** A new entry becomes visible; what was possible before stays possible. */
  function SetEntry<D(==)>(fs: Fs<D>, p: Path, e: Option<File<D>>): (r: Fs<D>)
    ensures Look(r, p) == e && Possible(r, p) == Possible(fs, p) + {e}
    ensures forall x :: x != p ==> Look(r, x) == Look(fs, x) && Possible(r, x) == Possible(fs, x)
    ensures SameDirs(fs, r)
  {
    fs.(now := match e case Some(f) => fs.now[p := f] case None => fs.now - {p}, older := fs.older[p := Possible(fs, p)])
  }

  predicate SameDirs<D(==)>(a: Fs<D>, b: Fs<D>) {
    b.dirs == a.dirs && b.gone == a.gone
  }

  /** The visible file changes in place. */
  function Touch<D(==)>(fs: Fs<D>, p: Path, f: File<D>): (r: Fs<D>)
    ensures Look(r, p) == Some(f)
    ensures forall x :: x != p ==> Look(r, x) == Look(fs, x) && Possible(r, x) == Possible(fs, x)
    ensures SameDirs(fs, r)
  {
    fs.(now := fs.now[p := f])
  }

  /** The entries of `dir` become durable. */
  function SyncEntries<D(==)>(fs: Fs<D>, dir: Path): (r: Fs<D>)
    ensures r.now == fs.now
    ensures forall p :: InDir(p, dir) ==> Possible(r, p) == {Look(fs, p)}
    ensures forall p :: !InDir(p, dir) ==> Possible(r, p) == Possible(fs, p)
    ensures SameDirs(fs, r)
  {
    fs.(older := map p | p in fs.older && !InDir(p, dir) :: fs.older[p])
  }

  /** Directories go from view, though a crash may bring them back. */
  function DropDirs<D(==)>(fs: Fs<D>, ds: set<Path>): Fs<D> {
    fs.(dirs := fs.dirs - ds, gone := fs.gone + ds)
  }

  /** What a directory lists: files and directories. */
  function Children<D(==)>(fs: Fs<D>, dir: Path): set<string> {
    (set p | p in fs.now.Keys && dir < p :: p[|dir|]) + (set d | d in fs.dirs && dir < d :: d[|dir|])
  }

  ghost predicate Enumerates(names: seq<string>, s: set<string>) {
    && (forall i, j :: 0 <= i < j < |names| ==> names[i] != names[j])
    && forall x :: x in names <==> x in s
  }

  // ---- the disk ----

  /** A disk that is `calm` meets no fault and no loss of power; any other may meet them at every step. */
  class Disk<D(==, 0, !new)> {
    var fs: Fs<D>
    const calm: bool

    constructor (initial: Fs<D>, calm: bool)
      ensures fs == initial && this.calm == calm
    {
      fs := initial;
      this.calm := calm;
    }

    method Faulty() returns (fault: bool)
      ensures calm ==> !fault
    {
      fault := *;
      fault := fault && !calm;
    }

    /** Lose power and restart: some allowed state is found. */
    method Crash()
      modifies this
      ensures Crashed(old(fs), fs)
    {
      ghost var plain := Fs(map p | p in fs.now :: File(fs.now[p].doc, true), map[], fs.dirs, {});
      assert Crashed(fs, plain) by {
        forall p ensures CrashedAt(fs, plain, p) {
          assert Look(fs, p) in Possible(fs, p) && Survives(Look(fs, p), Look(plain, p));
        }
      }
      var found: Fs<D> :| found.older == map[] && found.gone == {} && fs.dirs <= found.dirs <= fs.dirs + fs.gone &&
        forall p :: p in fs.now.Keys + fs.older.Keys + found.now.Keys ==> CrashedAt(fs, found, p);
      assert forall p :: p !in fs.now.Keys + fs.older.Keys + found.now.Keys ==> CrashedAt(fs, found, p) by {
        forall p | p !in fs.now.Keys + fs.older.Keys + found.now.Keys ensures CrashedAt(fs, found, p) {
          assert None in Possible(fs, p) && Survives(None, Look(found, p));
        }
      }
      fs := found;
    }

    /** Power may be lost before any operation. */
    method MayCrash() returns (lost: bool)
      modifies this
      ensures !lost ==> fs == old(fs)
      ensures lost ==> Crashed(old(fs), fs)
      ensures calm ==> !lost
    {
      lost := Faulty();
      if lost {
        Crash();
      }
    }

    /** `open` with `create_new`: refuses an existing name and a missing directory. The new file has some
        contents that are not durable. */
    method CreateNew(p: Path, initial: D) returns (out: Outcome)
      modifies this
      ensures out.Done? ==> Look(old(fs), p).None? && fs == SetEntry(old(fs), p, Some(File(initial, false)))
      ensures out.Failed? ==> fs == old(fs)
      ensures out.PowerLoss? ==> Crashed(old(fs), fs)
      ensures calm && p != [] && Parent(p) in old(fs).dirs && p !in old(fs).now ==> out.Done?
    {
      var lost := MayCrash();
      if lost { return PowerLoss; }
      var fault := Faulty();
      if p in fs.now || p == [] || Parent(p) !in fs.dirs || fault { return Failed; }
      fs := SetEntry(fs, p, Some(File(initial, false)));
      out := Done;
    }

    /** `write_all`: on failure the file holds anything. */
    method WriteAll(p: Path, doc: D) returns (out: Outcome)
      requires p in fs.now
      modifies this
      ensures out.Done? ==> fs == Touch(old(fs), p, File(doc, false))
      ensures out.Failed? ==> exists d :: fs == Touch(old(fs), p, File(d, false))
      ensures out.PowerLoss? ==> Crashed(old(fs), fs)
      ensures calm ==> out.Done?
    {
      var lost := MayCrash();
      if lost { return PowerLoss; }
      var fault := Faulty();
      if !fault {
        fs := Touch(fs, p, File(doc, false));
        return Done;
      }
      var partial: D := *;
      fs := Touch(fs, p, File(partial, false));
      out := Failed;
    }

    /** `sync_all` on a file. */
    method SyncFile(p: Path) returns (out: Outcome)
      requires p in fs.now
      modifies this
      ensures out.Done? ==> fs == Touch(old(fs), p, File(old(fs).now[p].doc, true))
      ensures out.Failed? ==> fs == old(fs)
      ensures out.PowerLoss? ==> Crashed(old(fs), fs)
      ensures calm ==> out.Done?
    {
      var lost := MayCrash();
      if lost { return PowerLoss; }
      var fault := Faulty();
      if fault { return Failed; }
      fs := Touch(fs, p, File(fs.now[p].doc, true));
      out := Done;
    }

    method Rename(p: Path, q: Path) returns (out: Outcome)
      requires p in fs.now && p != q
      modifies this
      ensures out.Done? ==> fs == SetEntry(SetEntry(old(fs), q, Look(old(fs), p)), p, None)
      ensures out.Failed? ==> fs == old(fs)
      ensures out.PowerLoss? ==> Crashed(old(fs), fs)
      ensures calm ==> out.Done?
    {
      var lost := MayCrash();
      if lost { return PowerLoss; }
      var fault := Faulty();
      if fault { return Failed; }
      fs := SetEntry(SetEntry(fs, q, Look(fs, p)), p, None);
      out := Done;
    }

    /** `remove_file`, whose own failure the callers ignore. */
    method Remove(p: Path) returns (out: Outcome)
      modifies this
      ensures out.Done? ==> fs == SetEntry(old(fs), p, None)
      ensures out.Failed? ==> fs == old(fs)
      ensures out.PowerLoss? ==> Crashed(old(fs), fs)
      ensures calm && p in old(fs).now ==> out.Done?
    {
      var lost := MayCrash();
      if lost { return PowerLoss; }
      var fault := Faulty();
      if p !in fs.now || fault { return Failed; }
      fs := SetEntry(fs, p, None);
      out := Done;
    }

    /** Open a directory and `sync_all` it. */
    method SyncDir(dir: Path) returns (out: Outcome)
      modifies this
      ensures out.Done? ==> fs == SyncEntries(old(fs), dir)
      ensures out.Failed? ==> fs == old(fs)
      ensures out.PowerLoss? ==> Crashed(old(fs), fs)
      ensures calm ==> out.Done?
    {
      var lost := MayCrash();
      if lost { return PowerLoss; }
      var fault := Faulty();
      if fault { return Failed; }
      fs := SyncEntries(fs, dir);
      out := Done;
    }

    /** `create_dir_secure`: an existing directory is fine; otherwise it is created with its missing
        parents, of which a failure may leave some. */
    method CreateDir(dir: Path) returns (out: Outcome)
      modifies this
      ensures !out.PowerLoss? ==> Grown(old(fs), fs, dir)
      ensures out.Done? ==> dir in fs.dirs
      ensures out.Done? && dir !in old(fs).dirs ==> Reachable(fs, dir)
      ensures out.PowerLoss? ==> Crashed(old(fs), fs)
      ensures calm ==> out.Done?
    {
      var lost := MayCrash();
      if lost { return PowerLoss; }
      if dir in fs.dirs { return Done; }
      var missing := set i | 0 <= i <= |dir| :: dir[..i];
      var fault := Faulty();
      if fault {
        var made: set<Path> :| made <= missing;
        fs := fs.(dirs := fs.dirs + made);
        return Failed;
      }
      assert dir[..|dir|] == dir;
      assert forall d :: d <= dir ==> d == dir[..|d|];
      fs := fs.(dirs := fs.dirs + missing);
      out := Done;
    }

    /** Remove these files, one by one, until one cannot be. */
    method RemoveFiles(dir: Path, files: set<Path>) returns (out: Outcome)
      requires forall p :: p in files ==> dir <= p && p in fs.now
      modifies this
      ensures !out.PowerLoss? ==> Swept(old(fs), fs, dir) && fs.dirs == old(fs).dirs
      ensures out.PowerLoss? ==> exists s :: Swept(old(fs), s, dir) && Crashed(s, fs)
      ensures out.Done? ==> fs.now == old(fs).now - files
      ensures calm ==> out.Done?
    {
      ghost var start := fs;
      assert Swept(start, start, dir);
      var todo := files;
      while todo != {}
        invariant Swept(start, fs, dir) && fs.dirs == start.dirs
        invariant todo <= files && fs.now == start.now - (files - todo)
        decreases todo
      {
        InhabitedPaths(todo);
        var p :| p in todo;
        ghost var before := fs;
        out := Remove(p);
        if !out.Done? {
          return;
        }
        SweptMore(start, before, fs, dir, p);
        todo := todo - {p};
      }
      return Done;
    }

    /** `remove_dir_all`: the files below `dir` go one by one, in any order, and then the directories;
        an error stops it half way. Nothing is synced. If there is nothing, nothing is done. */
    method RemoveTree(dir: Path) returns (out: Outcome)
      modifies this
      ensures out.Done? ==> Wiped(old(fs), fs, dir)
      ensures out.Failed? ==> Swept(old(fs), fs, dir)
      ensures out.PowerLoss? ==> exists s :: Swept(old(fs), s, dir) && Crashed(s, fs)
      ensures Absent(old(fs), dir) ==> !out.Failed? && (out.Done? ==> fs == old(fs))
      ensures calm ==> out.Done?
    {
      ghost var start := fs;
      assert Swept(start, start, dir);
      var lost := MayCrash();
      if lost { return PowerLoss; }
      var todo := set p | p in fs.now.Keys && dir <= p;
      var folders := set d | d in fs.dirs && dir <= d;
      if todo == {} && folders == {} {
        NothingBelow(fs, dir, todo, folders);
        return Done;
      }
      if Absent(fs, dir) { NothingToRemove(fs, dir, todo, folders); }
      out := RemoveFiles(dir, todo);
      if !out.Done? { return; }
      ghost var before := fs;
      lost := MayCrash();
      if lost { return PowerLoss; }
      var stuck := Faulty();
      var dropped: set<Path> :| dropped <= folders && (stuck || dropped == folders);
      fs := DropDirs(fs, dropped);
      SweptDirs(start, before, fs, dir, dropped);
      out := if dropped == folders then Done else Failed;
      if out.Done? { NothingBelow(fs, dir, {}, {}); }
    }

    /** `read_dir`: the listed names in any order, each at most once, or an error, as for a directory that
        does not exist. An entry that cannot be read is skipped. */
    method ReadDir(dir: Path) returns (r: Option<seq<string>>, skipped: set<string>)
      ensures r.Some? ==> Enumerates(r.value, Children(fs, dir) - skipped) && dir in fs.dirs
      ensures calm ==> skipped == {} && (dir in fs.dirs ==> r.Some?)
    {
      var fault := Faulty();
      if dir !in fs.dirs || fault { return None, {}; }
      var all := Children(fs, dir);
      fault := Faulty();
      skipped :| skipped <= all && (fault || skipped == {});
      var left, names := all - skipped, [];
      while left != {}
        invariant Enumerates(names, all - skipped - left) && left <= all - skipped
        decreases left
      {
        InhabitedNames(left);
        var x :| x in left;
        assert forall y :: y in names + [x] <==> y in names || y == x;
        names := names + [x];
        left := left - {x};
      }
      assert all - skipped - left == all - skipped;
      return Some(names), skipped;
    }

    // ---- write_atomic ----

    /** Write `doc` to a fresh temporary name and sync it. Whatever happens, only that name is
        touched. */
    method WriteTemp(tmp: Path, doc: D) returns (out: Outcome)
      modifies this
      ensures out.Done? ==> Look(fs, tmp) == Some(File(doc, true))
      ensures !out.PowerLoss? ==> OnlyAt(old(fs), fs, tmp)
      ensures out.PowerLoss? ==> exists s :: OnlyAt(old(fs), s, tmp) && Crashed(s, fs)
      ensures out.Done? ==> Look(old(fs), tmp).None?
      ensures calm && tmp != [] && Parent(tmp) in old(fs).dirs && tmp !in old(fs).now ==> out.Done?
    {
      ghost var start := fs;
      var empty: D := *;
      var created := CreateNew(tmp, empty);
      if !created.Done? {
        assert OnlyAt(start, start, tmp);
        return created;
      }
      ghost var s1 := fs;
      assert OnlyAt(start, s1, tmp);
      var written := WriteAll(tmp, doc);
      if !written.Done? { return written; }
      ghost var s2 := fs;
      assert OnlyAt(start, s2, tmp);
      out := SyncFile(tmp);
    }

    /** Temporary file, sync, rename, directory sync; the temporary is removed on failure. It succeeds if
        the disk is calm, the directory exists and holds no temporary file. */
    method WriteAtomic(final: Path, doc: D) returns (out: Outcome)
      requires !IsTemp(final)
      modifies this
      ensures Wrote(old(fs), fs, final, doc, out)
      ensures out.Done? ==> SameTemps(old(fs), fs)
      ensures calm && final != [] && Parent(final) in old(fs).dirs && Tidy(old(fs), Parent(final)) ==> out.Done?
    {
      ghost var start := fs;
      if final == [] {
        return Failed;
      }
      var dir := Parent(final);
      var suffix: string := *;
      var tmp := dir + ["." + suffix + ".tmp"];
      assert Parent(tmp) == dir;
      var written := WriteTemp(tmp, doc);
      if written.PowerLoss? {
        ghost var s :| OnlyAt(start, s, tmp) && Crashed(s, fs);
        TempIsMid(start, s, tmp, final, doc);
        return PowerLoss;
      }
      TempIsMid(start, fs, tmp, final, doc);
      if written.Failed? {
        out := CleanUp(start, tmp, final, doc);
        return;
      }
      ghost var ready := fs;
      var renamed := Rename(tmp, final);
      if renamed.PowerLoss? {
        return PowerLoss;
      }
      if renamed.Failed? {
        out := CleanUp(start, tmp, final, doc);
        return;
      }
      RenameIsMid(start, ready, fs, tmp, final, doc);
      ghost var renamedFs := fs;
      out := SyncDir(dir);
      if out.Done? {
        SyncIsMid(start, renamedFs, fs, dir, final, doc);
      }
    }

    /** Best-effort removal of the temporary before reporting the original failure. */
    method CleanUp(ghost start: Fs<D>, tmp: Path, final: Path, doc: D) returns (out: Outcome)
      requires IsTemp(tmp) && final != [] && InDir(tmp, Parent(final)) && !IsTemp(final) && Mid(start, fs, final, doc)
      modifies this
      ensures out.Failed? || out.PowerLoss?
      ensures Wrote(start, fs, final, doc, out)
    {
      ghost var before := fs;
      var removed := Remove(tmp);
      if removed.PowerLoss? {
        return PowerLoss;
      }
      if removed.Done? {
        MidAfterTemp(start, before, fs, tmp, final, doc);
      }
      out := Failed;
    }
  }

  /** `dir` and all directories above it exist. */
  ghost predicate Reachable<D>(fs: Fs<D>, dir: Path) {
    forall d :: d <= dir ==> d in fs.dirs
  }

  /** No temporary name below `dir` is taken. */
  ghost predicate Tidy<D>(fs: Fs<D>, dir: Path) {
    forall p :: dir <= p && IsTemp(p) ==> Look(fs, p).None?
  }

  ghost predicate SameTemps<D>(a: Fs<D>, b: Fs<D>) {
    forall p :: IsTemp(p) ==> Look(b, p) == Look(a, p)
  }

  /** At most new directories, each above or at `dir`. */
  ghost predicate Grown<D>(a: Fs<D>, b: Fs<D>, dir: Path) {
    && b.now == a.now && b.older == a.older && b.gone == a.gone
    && a.dirs <= b.dirs && forall d :: d in b.dirs ==> d in a.dirs || d <= dir
  }

  /** Some files and directories below `dir` are gone from view, though a crash may bring them back;
      nothing else changed. */
  ghost predicate Swept<D>(a: Fs<D>, b: Fs<D>, dir: Path) {
    && (forall p :: !(dir <= p) ==> Look(b, p) == Look(a, p) && Possible(b, p) == Possible(a, p))
    && (forall p :: dir <= p ==>
          (Look(b, p) == Look(a, p) && Possible(b, p) == Possible(a, p)) ||
          (Look(b, p).None? && Possible(b, p) == Possible(a, p) + {None}))
    && b.dirs <= a.dirs && a.gone <= b.gone
    && (forall d :: d in a.dirs && d !in b.dirs ==> dir <= d && d in b.gone)
    && forall d :: d in b.gone ==> d in a.gone || dir <= d
  }

  /** No file below `dir` is visible. */
  ghost predicate Bare<D>(fs: Fs<D>, dir: Path) {
    forall p :: dir <= p ==> Look(fs, p).None?
  }

  /** Neither `dir` nor anything below it is visible. */
  ghost predicate Absent<D>(fs: Fs<D>, dir: Path) {
    Bare(fs, dir) && forall d :: d in fs.dirs ==> !(dir <= d)
  }

  ghost predicate Wiped<D>(a: Fs<D>, b: Fs<D>, dir: Path) {
    Swept(a, b, dir) && Absent(b, dir)
  }

  lemma NothingBelow<D>(fs: Fs<D>, dir: Path, files: set<Path>, folders: set<Path>)
    requires files == {} && forall p :: p in fs.now && dir <= p ==> p in files
    requires folders == {} && forall d :: d in fs.dirs && dir <= d ==> d in folders
    ensures Absent(fs, dir)
  {
  }

  lemma NothingToRemove<D>(fs: Fs<D>, dir: Path, files: set<Path>, folders: set<Path>)
    requires Absent(fs, dir)
    requires (forall p :: p in files ==> p in fs.now && dir <= p) && forall d :: d in folders ==> d in fs.dirs && dir <= d
    ensures files == {} && folders == {}
  {
    forall p ensures p !in files {
      assert dir <= p ==> Look(fs, p).None?;
    }
  }

  lemma SweptDirs<D>(a: Fs<D>, s: Fs<D>, t: Fs<D>, dir: Path, ds: set<Path>)
    requires Swept(a, s, dir) && t == DropDirs(s, ds) && forall d :: d in ds ==> dir <= d
    ensures Swept(a, t, dir)
  {
    forall p ensures Look(t, p) == Look(s, p) && Possible(t, p) == Possible(s, p) {}
  }

  lemma InhabitedPaths(s: set<Path>)
    requires s != {}
    ensures exists p :: p in s
  {
    assert (forall p :: p !in s) ==> s == {};
  }

  lemma InhabitedNames(s: set<string>)
    requires s != {}
    ensures exists x :: x in s
  {
    assert (forall x :: x !in s) ==> s == {};
  }

  lemma SweptMore<D>(a: Fs<D>, s: Fs<D>, t: Fs<D>, dir: Path, p: Path)
    requires Swept(a, s, dir) && dir <= p && t == SetEntry(s, p, None)
    ensures Swept(a, t, dir)
  {
  }

  /** A temporary name: `.<suffix>.tmp`. */
  predicate IsTemp(p: Path) {
    p != [] && IsTempName(p[|p| - 1])
  }

  predicate IsTempName(name: string) {
    |name| >= 5 && name[0] == '.' && name[|name| - 4..] == ".tmp"
  }

  ghost predicate OnlyAt<D>(a: Fs<D>, b: Fs<D>, tmp: Path) {
    SameDirs(a, b) && forall p :: p != tmp ==> Look(b, p) == Look(a, p) && Possible(b, p) == Possible(a, p)
  }

  /** A state on the way of writing `doc` to `final`, starting in `a`: other final names are
      untouched, and `final` is either untouched or shows the complete new contents. Outside the
      directory of `final` nothing changes at all. */
  ghost predicate Mid<D>(a: Fs<D>, s: Fs<D>, final: Path, doc: D) {
    && (forall p :: !IsTemp(p) && p != final ==> Kept(a, s, p))
    && (Kept(a, s, final) ||
        (Look(s, final) == Some(File(doc, true)) && Possible(s, final) <= Possible(a, final) + {Some(File(doc, true))}))
    && Local(a, s, final)
  }

  ghost predicate Local<D>(a: Fs<D>, s: Fs<D>, final: Path) {
    SameDirs(a, s) && forall p :: !(final != [] && InDir(p, Parent(final))) ==> Look(s, p) == Look(a, p) && Possible(s, p) == Possible(a, p)
  }

  /** What a write leaves behind: success is durable; failure may leave the new contents visible;
      a power loss strikes some state on the way. */
  ghost predicate Wrote<D(!new)>(a: Fs<D>, b: Fs<D>, final: Path, doc: D, out: Outcome) {
    match out
    case Done => Mid(a, b, final, doc) && Possible(b, final) == {Some(File(doc, true))}
    case Failed => Mid(a, b, final, doc)
    case PowerLoss => exists s :: Mid(a, s, final, doc) && Crashed(s, b)
  }

  lemma TempIsMid<D>(a: Fs<D>, s: Fs<D>, tmp: Path, final: Path, doc: D)
    requires OnlyAt(a, s, tmp) && IsTemp(tmp) && final != [] && InDir(tmp, Parent(final)) && !IsTemp(final)
    ensures Mid(a, s, final, doc)
  {
  }

  lemma MidAfterTemp<D>(a: Fs<D>, s: Fs<D>, t: Fs<D>, tmp: Path, final: Path, doc: D)
    requires Mid(a, s, final, doc) && t == SetEntry(s, tmp, None) && IsTemp(tmp) && !IsTemp(final)
    requires final != [] && InDir(tmp, Parent(final))
    ensures Mid(a, t, final, doc)
  {
    forall p | !IsTemp(p) && p != final ensures Kept(a, t, p) {
      assert Kept(a, s, p);
    }
  }

  lemma RenameIsMid<D>(a: Fs<D>, s: Fs<D>, t: Fs<D>, tmp: Path, final: Path, doc: D)
    requires OnlyAt(a, s, tmp) && Look(s, tmp) == Some(File(doc, true))
    requires t == SetEntry(SetEntry(s, final, Look(s, tmp)), tmp, None)
    requires IsTemp(tmp) && !IsTemp(final) && final != [] && InDir(tmp, Parent(final))
    ensures Mid(a, t, final, doc) && Look(t, final) == Some(File(doc, true))
  {
  }

  lemma SyncIsMid<D>(a: Fs<D>, s: Fs<D>, t: Fs<D>, dir: Path, final: Path, doc: D)
    requires Mid(a, s, final, doc) && Look(s, final) == Some(File(doc, true))
    requires t == SyncEntries(s, dir) && InDir(final, dir)
    ensures Mid(a, t, final, doc) && Possible(t, final) == {Some(File(doc, true))}
  {
    forall p | !IsTemp(p) && p != final ensures Kept(a, t, p) {
      assert Kept(a, s, p);
    }
  }

  // ---- what writes and crashes leave, over every run ----

  ghost predicate AllClean<D(!new)>(fs: Fs<D>) {
    forall p :: !IsTemp(p) ==> Clean(fs, p)
  }

  /** Nothing may be found in `b` that could not be found in `a`, except the complete `doc` at
      `final`. */
  ghost predicate AddsAtMost<D(!new)>(a: Fs<D>, b: Fs<D>, final: Path, doc: D) {
    forall p :: !IsTemp(p) ==>
      Possible(b, p) <= Possible(a, p) + if p == final then {Some(File(doc, true))} else {}
  }

  ghost predicate Shrinks<D(!new)>(a: Fs<D>, b: Fs<D>) {
    forall p :: !IsTemp(p) ==> Possible(b, p) <= Possible(a, p)
  }

  /** A crash only decides between what was possible, and what it decides is durable. */
  lemma CrashShrinks<D(!new)>(a: Fs<D>, b: Fs<D>)
    requires AllClean(a) && Crashed(a, b)
    ensures AllClean(b) && Shrinks(a, b)
  {
    forall p | !IsTemp(p) ensures Clean(b, p) && Possible(b, p) <= Possible(a, p) {
      assert Clean(a, p) && CrashedAt(a, b, p);
      var o :| o in Possible(a, p) && Survives(o, Look(b, p));
      assert o == Look(b, p);
    }
  }

  lemma MidAdds<D(!new)>(a: Fs<D>, s: Fs<D>, final: Path, doc: D)
    requires AllClean(a) && Mid(a, s, final, doc) && !IsTemp(final)
    ensures AllClean(s) && AddsAtMost(a, s, final, doc)
  {
    forall p | !IsTemp(p)
      ensures Clean(s, p) && Possible(s, p) <= Possible(a, p) + if p == final then {Some(File(doc, true))} else {}
    {
      assert Clean(a, p);
      assert p == final || Kept(a, s, p);
    }
  }

  /** However a write ends, and even if power is lost in it. */
  lemma WroteAdds<D(!new)>(a: Fs<D>, b: Fs<D>, final: Path, doc: D, out: Outcome)
    requires AllClean(a) && Wrote(a, b, final, doc, out) && !IsTemp(final)
    ensures AllClean(b) && AddsAtMost(a, b, final, doc)
  {
    if out.PowerLoss? {
      var s :| Mid(a, s, final, doc) && Crashed(s, b);
      MidAdds(a, s, final, doc);
      CrashShrinks(s, b);
    } else {
      MidAdds(a, b, final, doc);
    }
  }

  datatype Step<D> = Write(final: Path, doc: D, out: Outcome) | Restart

  ghost predicate Ran<D(!new)>(a: Fs<D>, b: Fs<D>, step: Step<D>) {
    match step
    case Write(final, doc, out) => !IsTemp(final) && Wrote(a, b, final, doc, out)
    case Restart => Crashed(a, b)
  }

  /** A run of writes and restarts, in any order and with any outcomes. */
  ghost predicate Run<D(!new)>(states: seq<Fs<D>>, steps: seq<Step<D>>) {
    |states| == |steps| + 1 && forall k :: 0 <= k < |steps| ==> Ran(states[k], states[k + 1], steps[k])
  }

  /** The contents some write of the run aimed at `p`. */
  function Attempts<D(==)>(steps: seq<Step<D>>, p: Path): set<Option<File<D>>> {
    if steps == [] then {} else
      var last := steps[|steps| - 1];
      Attempts(steps[..|steps| - 1], p) +
      if last.Write? && last.final == p then {Some(File(last.doc, true))} else {}
  }

  /** Over every run, what a final name shows is complete: the old contents or the complete contents
      of one of the writes to it, never a part and never another name's. */
  lemma {:induction false} EveryRunIsAtomic<D(!new)>(states: seq<Fs<D>>, steps: seq<Step<D>>, p: Path)
    requires Run(states, steps) && AllClean(states[0]) && !IsTemp(p)
    ensures AllClean(states[|steps|])
    ensures Look(states[|steps|], p) in Possible(states[0], p) + Attempts(steps, p)
    ensures Possible(states[|steps|], p) <= Possible(states[0], p) + Attempts(steps, p)
    decreases |steps|
  {
    if steps != [] {
      var n := |steps| - 1;
      var a, b := states[n], states[n + 1];
      EveryRunIsAtomic(states[..n + 1], steps[..n], p);
      assert Ran(a, b, steps[n]);
      match steps[n] {
        case Write(final, doc, out) => WroteAdds(a, b, final, doc, out);
        case Restart => CrashShrinks(a, b);
      }
    }
  }

  lemma {:induction false} AcknowledgedFrom<D(!new)>(states: seq<Fs<D>>, steps: seq<Step<D>>, j: nat, p: Path, e: Option<File<D>>)
    requires Run(states, steps) && AllClean(states[0]) && !IsTemp(p) && j <= |steps|
    requires Possible(states[j], p) == {e}
    requires forall k :: j <= k < |steps| ==> !(steps[k].Write? && steps[k].final == p)
    ensures Possible(states[|steps|], p) == {e}
    decreases |steps|
  {
    if j < |steps| {
      var n := |steps| - 1;
      AcknowledgedFrom(states[..n + 1], steps[..n], j, p, e);
      EveryRunIsAtomic(states[..n + 1], steps[..n], p);
      var a, b := states[n], states[n + 1];
      assert Ran(a, b, steps[n]);
      match steps[n] {
        case Write(final, doc, out) => WroteAdds(a, b, final, doc, out);
        case Restart => CrashShrinks(a, b);
      }
      assert Look(b, p) in Possible(b, p);
    }
  }

  /** An acknowledged write survives everything that follows, crashes included, until the same name
      is written again. */
  lemma AcknowledgedSurvives<D(!new)>(states: seq<Fs<D>>, steps: seq<Step<D>>, j: nat, p: Path, doc: D)
    requires Run(states, steps) && AllClean(states[0]) && j < |steps| && steps[j] == Write(p, doc, Done)
    requires forall k :: j < k < |steps| ==> !(steps[k].Write? && steps[k].final == p)
    ensures DocAt(states[|steps|], p) == Some(doc)
    ensures Possible(states[|steps|], p) == {Some(File(doc, true))}
  {
    assert Ran(states[j], states[j + 1], steps[j]);
    AcknowledgedFrom(states, steps, j + 1, p, Some(File(doc, true)));
    assert Look(states[|steps|], p) in Possible(states[|steps|], p);
  }
}
