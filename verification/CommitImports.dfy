/** `commitImports`: replacing many package directories as one transaction. */
module CommitImports {
  import opened Bytes

  datatype File = File(data: seq<byte>, mode: nat)

  /** A directory tree, as its files by relative name. */
  type Dir = map<string, File>

  /** Where a target lives under the staging and the backup root. */
  datatype Slot = Binaries(id: string) | Native

  /** A directory of the project, or one inside the transaction root. */
  datatype Path = Project(name: string) | Next(slot: Slot) | Backup(slot: Slot)

  datatype FilePath = FilePath(dir: string, name: string)

  datatype Import = Import(id: string, files: seq<string>, source: string, target: string, manifest: FilePath)

  datatype Target = Target(live: Path, staged: Path, backup: Path)

  /** The calls that may throw, by target. A call that throws has had no effect. */
  datatype Step = Stage | Mkdir | MoveAway | Hook | MoveIn | Log

  type Faults = set<(nat, Step)>

  datatype Outcome = Committed | RolledBack | StagingFailed

  const MANIFEST := "build-manifest.json"
  const DECLARATIONS := "http3.d.ts"
  const NATIVE := "packages/native"

  // ---------------------------------------------------------------- staged contents

  /** `copyPreservingMode`: new contents, and the mode of the file replaced if there is one. */
  function CopyFile(dir: Dir, name: string, file: File): Dir {
    dir[name := File(file.data, if name in dir then dir[name].mode else file.mode)]
  }

  function Lookup(dirs: map<Path, Dir>, path: FilePath): Option<File> {
    if Project(path.dir) in dirs && path.name in dirs[Project(path.dir)]
    then Some(dirs[Project(path.dir)][path.name]) else None
  }

  /** Copy the named files of a source directory over a directory, one by one. */
  function CopyFiles(dirs: map<Path, Dir>, dir: Dir, source: string, names: seq<string>): Option<Dir> {
    if names == [] then Some(dir) else
    var k := |names| - 1;
    match (CopyFiles(dirs, dir, source, names[..k]), Lookup(dirs, FilePath(source, names[k])))
    case (Some(copied), Some(file)) => Some(CopyFile(copied, names[k], file))
    case _ => None
  }

  /** The directory staged for an import; none when something to copy is missing. */
  function StagedImport(dirs: map<Path, Dir>, i: Import): Option<Dir> {
    if Project(i.target) !in dirs then None else
    match (CopyFiles(dirs, dirs[Project(i.target)], i.source, i.files), Lookup(dirs, i.manifest))
    case (Some(copied), Some(file)) => Some(CopyFile(copied, MANIFEST, file))
    case _ => None
  }

  function StagedNative(dirs: map<Path, Dir>, declaration: FilePath): Option<Dir> {
    if Project(NATIVE) !in dirs then None else
    match Lookup(dirs, declaration)
    case Some(file) => Some(CopyFile(dirs[Project(NATIVE)], DECLARATIONS, file))
    case None => None
  }

  /** What the i-th target is to hold; the native package comes last. */
  function Planned(dirs: map<Path, Dir>, imports: seq<Import>, declaration: FilePath, i: nat): Option<Dir>
    requires i <= |imports|
  {
    if i < |imports| then StagedImport(dirs, imports[i]) else StagedNative(dirs, declaration)
  }

  function TargetOf(imports: seq<Import>, i: nat): Target
    requires i <= |imports|
  {
    if i < |imports| then
      var slot := Binaries(imports[i].id);
      Target(Project(imports[i].target), Next(slot), Backup(slot))
    else Target(Project(NATIVE), Next(Native), Backup(Native))
  }

  function Targets(imports: seq<Import>): (targets: seq<Target>)
    ensures |targets| == |imports| + 1
    ensures forall i | 0 <= i < |targets| :: targets[i] == TargetOf(imports, i)
  {
    seq(|imports| + 1, i requires 0 <= i <= |imports| => TargetOf(imports, i))
  }

  /** Each platform is imported once, into a directory of its own. */
  predicate Distinct(imports: seq<Import>) {
    && (forall i, j | 0 <= i < j < |imports| :: imports[i].id != imports[j].id)
    && (forall i, j | 0 <= i < j <= |imports| :: TargetOf(imports, i).live != TargetOf(imports, j).live)
  }

  /** The project holds the file. */
  ghost predicate Exists(dirs: map<Path, Dir>, path: FilePath) {
    Project(path.dir) in dirs && path.name in dirs[Project(path.dir)]
  }

  ghost function Source(dirs: map<Path, Dir>, path: FilePath): File
    requires Exists(dirs, path)
  {
    dirs[Project(path.dir)][path.name]
  }

  /** A directory holds exactly the imported files and the manifest over its old contents; a file
      replaced keeps its mode, a new one has that of the first file copied under its name. */
  ghost predicate IsOverlay(dirs: map<Path, Dir>, live: Dir, result: Dir, i: Import) {
    && Exists(dirs, i.manifest) && (forall name | name in i.files :: Exists(dirs, FilePath(i.source, name)))
    && result.Keys == live.Keys + (set name | name in i.files) + {MANIFEST}
    && (forall name | name in result ::
          if name == MANIFEST || name in i.files then
            var content := Source(dirs, if name == MANIFEST then i.manifest else FilePath(i.source, name));
            var created := Source(dirs, if name in i.files then FilePath(i.source, name) else i.manifest);
            result[name] == File(content.data, if name in live then live[name].mode else created.mode)
          else
            name in live && result[name] == live[name])
  }

  /** The native package holds the declarations over its old contents. */
  ghost predicate IsDeclared(dirs: map<Path, Dir>, live: Dir, result: Dir, declaration: FilePath) {
    && Exists(dirs, declaration) && result.Keys == live.Keys + {"http3.d.ts"}
    && (var source := Source(dirs, declaration);
        result["http3.d.ts"]
        == File(source.data, if "http3.d.ts" in live then live["http3.d.ts"].mode else source.mode))
    && (forall name | name in live && name != "http3.d.ts" :: result[name] == live[name])
  }

  /** Something to copy for the `i`-th target is not there. */
  ghost predicate Missing(dirs: map<Path, Dir>, imports: seq<Import>, declaration: FilePath, i: nat)
    requires i <= |imports|
  {
    if i < |imports| then
      || Project(imports[i].target) !in dirs || !Exists(dirs, imports[i].manifest)
      || (exists name | name in imports[i].files :: !Exists(dirs, FilePath(imports[i].source, name)))
    else Project("packages/native") !in dirs || !Exists(dirs, declaration)
  }

  lemma {:induction false} CopyFilesOverlay(dirs: map<Path, Dir>, dir: Dir, source: string, names: seq<string>)
    requires CopyFiles(dirs, dir, source, names).Some?
    ensures var r := CopyFiles(dirs, dir, source, names).value;
            && r.Keys == dir.Keys + (set name | name in names)
            && (forall name | name in names :: Exists(dirs, FilePath(source, name))
                 && r[name].data == Source(dirs, FilePath(source, name)).data
                 && r[name].mode == if name in dir then dir[name].mode
                                    else Source(dirs, FilePath(source, name)).mode)
            && (forall name | name in dir && name !in names :: r[name] == dir[name])
  {
    if names != [] {
      var k := |names| - 1;
      CopyFilesOverlay(dirs, dir, source, names[..k]);
      FoundIfExists(dirs, FilePath(source, names[k]));
      assert names == names[..k] + [names[k]];
    }
    hide Exists, Lookup;
  }

  ghost predicate AllExist(dirs: map<Path, Dir>, source: string, names: seq<string>) {
    forall i | 0 <= i < |names| :: Exists(dirs, FilePath(source, names[i]))
  }

  lemma {:induction false} CopyFilesMissing(dirs: map<Path, Dir>, dir: Dir, source: string, names: seq<string>)
    ensures CopyFiles(dirs, dir, source, names).Some? <==> AllExist(dirs, source, names)
  {
    hide CopyFile, Exists;
    if names != [] {
      var k := |names| - 1;
      CopyFilesMissing(dirs, dir, source, names[..k]);
      FoundIfExists(dirs, FilePath(source, names[k]));
      assert forall i | 0 <= i < k :: names[..k][i] == names[i];
    }
  }

  lemma {:induction false} FoundIfExists(dirs: map<Path, Dir>, path: FilePath)
    ensures Lookup(dirs, path) == if Exists(dirs, path) then Some(Source(dirs, path)) else None
  {
  }

  /** On success a directory becomes the original overlaid with exactly the imported files. */
  lemma {:induction false} StagedIsOverlay(dirs: map<Path, Dir>, i: Import)
    requires StagedImport(dirs, i).Some?
    ensures IsOverlay(dirs, dirs[Project(i.target)], StagedImport(dirs, i).value, i)
  {
    hide CopyFiles, Exists, Lookup;
    CopyFilesOverlay(dirs, dirs[Project(i.target)], i.source, i.files);
    FoundIfExists(dirs, i.manifest);
  }

  /** And the native package the original with the declarations over it. */
  lemma {:induction false} StagedIsDeclared(dirs: map<Path, Dir>, declaration: FilePath)
    requires StagedNative(dirs, declaration).Some?
    ensures Project("packages/native") in dirs
    ensures IsDeclared(dirs, dirs[Project("packages/native")], StagedNative(dirs, declaration).value, declaration)
  {
  }

  /** A target is staged exactly if everything to copy is there. */
  lemma {:induction false} PlannedUnlessMissing(dirs: map<Path, Dir>, imports: seq<Import>, declaration: FilePath,
                                                i: nat)
    requires i <= |imports|
    ensures Planned(dirs, imports, declaration, i).None? <==> Missing(dirs, imports, declaration, i)
  {
    if i < |imports| && Project(imports[i].target) in dirs {
      CopyFilesMissing(dirs, dirs[Project(imports[i].target)], imports[i].source, imports[i].files);
    }
    hide CopyFiles;
  }

  // ---------------------------------------------------------------- the transaction

  /** Every directory of the project is as it was. */
  ghost predicate ProjectKept(before: map<Path, Dir>, after: map<Path, Dir>) {
    forall p: Path | p.Project? :: (p in after <==> p in before) && (p in before ==> after[p] == before[p])
  }

  predicate Unchanged(d: map<Path, Dir>, d': map<Path, Dir>, p: Path) {
    (p in d' <==> p in d) && (p in d ==> d'[p] == d[p])
  }

  predicate NoTransaction(dirs: map<Path, Dir>) {
    forall p | p in dirs :: p.Project?
  }

  /** The first `k` targets are installed, the others untouched; `d0` is the state before the
      first install. */
  ghost predicate Installed(d0: map<Path, Dir>, d: map<Path, Dir>, targets: seq<Target>, k: nat)
    requires k <= |targets|
    requires forall i | 0 <= i < |targets| :: targets[i].live in d0 && targets[i].staged in d0
  {
    && (forall i | 0 <= i < k :: targets[i].live in d && d[targets[i].live] == d0[targets[i].staged])
    && (forall i | 0 <= i < k :: targets[i].backup in d && d[targets[i].backup] == d0[targets[i].live])
    && (forall i | k <= i < |targets| :: targets[i].live in d && d[targets[i].live] == d0[targets[i].live])
    && (forall p: Path | p.Project? && (forall i | 0 <= i < |targets| :: targets[i].live != p) ::
          (p in d <==> p in d0) && (p in d0 ==> d[p] == d0[p]))
  }

  class FileSystem {
    var dirs: map<Path, Dir>

    constructor (dirs: map<Path, Dir>)
      ensures this.dirs == dirs
    {
      this.dirs := dirs;
    }

    method Rename(from: Path, to: Path)
      requires from in dirs && to !in dirs
      modifies this
      ensures dirs == (old(dirs) - {from})[to := old(dirs[from])]
    {
      dirs := (dirs - {from})[to := dirs[from]];
    }

    method Remove(p: Path)
      modifies this
      ensures dirs == old(dirs) - {p}
    {
      dirs := dirs - {p};
    }

    /** Copy each named file over the staged directory; false when one is missing. */
    method StageFiles(staged: Path, source: string, names: seq<string>) returns (ok: bool)
      requires staged in dirs && !staged.Project?
      modifies this
      ensures var r := CopyFiles(old(dirs), old(dirs[staged]), source, names);
              ok == r.Some? && (ok ==> dirs == old(dirs)[staged := r.value])
      ensures dirs.Keys == old(dirs).Keys && forall p | p in dirs && p != staged :: dirs[p] == old(dirs[p])
    {
      ok := true;
      assert names[..|names|] == names;
      for k := 0 to |names|
        invariant ok && dirs.Keys == old(dirs).Keys
        invariant CopyFiles(old(dirs), old(dirs[staged]), source, names[..k]) == Some(dirs[staged])
        invariant dirs == old(dirs)[staged := dirs[staged]]
      {
        var file := Lookup(dirs, FilePath(source, names[k]));
        assert names[..k + 1][..k] == names[..k];
        if file.None? {
          MissingFile(old(dirs), old(dirs[staged]), source, names, k + 1);
          return false;
        }
        dirs := dirs[staged := CopyFile(dirs[staged], names[k], file.value)];
      }
    }
  }

  lemma {:induction false} MissingFile(dirs: map<Path, Dir>, dir: Dir, source: string, names: seq<string>, k: nat)
    requires k <= |names| && CopyFiles(dirs, dir, source, names[..k]).None?
    ensures CopyFiles(dirs, dir, source, names).None?
  {
    if k < |names| {
      assert names[..|names| - 1][..k] == names[..k];
      MissingFile(dirs, dir, source, names[..|names| - 1], k);
    } else {
      assert names[..k] == names;
    }
  }

  lemma {:induction false} CopyFilesKept(a: map<Path, Dir>, b: map<Path, Dir>, dir: Dir, source: string,
                                         names: seq<string>)
    requires ProjectKept(a, b)
    ensures CopyFiles(a, dir, source, names) == CopyFiles(b, dir, source, names)
  {
    if names != [] {
      CopyFilesKept(a, b, dir, source, names[..|names| - 1]);
    }
  }

  lemma {:induction false} PlannedKept(a: map<Path, Dir>, b: map<Path, Dir>, imports: seq<Import>,
                                       declaration: FilePath, i: nat)
    requires ProjectKept(a, b) && i <= |imports|
    ensures Planned(a, imports, declaration, i) == Planned(b, imports, declaration, i)
  {
    if i < |imports| && Project(imports[i].target) in a {
      CopyFilesKept(a, b, a[Project(imports[i].target)], imports[i].source, imports[i].files);
    }
  }

  /** Nothing read from the project depends on what is staged. */
  lemma {:induction false} LookupKept(dirs: map<Path, Dir>, staged: Path, dir: Dir, path: FilePath)
    requires !staged.Project?
    ensures Lookup(dirs[staged := dir], path) == Lookup(dirs, path)
  {
  }

  lemma {:induction false} CopyFilesStaged(dirs: map<Path, Dir>, staged: Path, dir: Dir, source: string,
                                           names: seq<string>)
    requires !staged.Project?
    ensures CopyFiles(dirs[staged := dir], dir, source, names) == CopyFiles(dirs, dir, source, names)
  {
    CopyFilesKept(dirs, dirs[staged := dir], dir, source, names);
  }

  /** Copy one file over the staged directory; false when it is missing. */
  method StageFile(fs: FileSystem, staged: Path, name: string, source: FilePath) returns (ok: bool)
    requires staged in fs.dirs && !staged.Project?
    modifies fs
    ensures var file := Lookup(old(fs.dirs), source);
            && ok == file.Some?
            && fs.dirs == if ok then old(fs.dirs)[staged := CopyFile(old(fs.dirs[staged]), name, file.value)]
                          else old(fs.dirs)
  {
    hide CopyFile;
    var file := Lookup(fs.dirs, source);
    if file.None? {
      return false;
    }
    fs.dirs := fs.dirs[staged := CopyFile(fs.dirs[staged], name, file.value)];
    ok := true;
  }

  /** Copy a live binaries directory, then the imported files and the manifest over it. */
  method StageImport(fs: FileSystem, i: Import, staged: Path) returns (ok: bool)
    requires staged !in fs.dirs && !staged.Project?
    modifies fs
    ensures var p := StagedImport(old(fs.dirs), i);
            ok == p.Some? && (ok ==> fs.dirs == old(fs.dirs)[staged := p.value])
    ensures fs.dirs - {staged} == old(fs.dirs)
  {
    hide CopyFiles, CopyFile, Lookup;
    if Project(i.target) !in fs.dirs {
      return false;
    }
    ghost var was := fs.dirs;
    var live := fs.dirs[Project(i.target)];
    fs.dirs := fs.dirs[staged := live];
    CopyFilesStaged(was, staged, live, i.source, i.files);
    ok := fs.StageFiles(staged, i.source, i.files);
    if ok {
      assert fs.dirs == was[staged := fs.dirs[staged]];
      LookupKept(was, staged, fs.dirs[staged], i.manifest);
      ok := StageFile(fs, staged, MANIFEST, i.manifest);
    }
  }

  /** Copy the live native package, then the declarations over it. */
  method StageNative(fs: FileSystem, declaration: FilePath, staged: Path) returns (ok: bool)
    requires staged !in fs.dirs && !staged.Project?
    modifies fs
    ensures var p := StagedNative(old(fs.dirs), declaration);
            ok == p.Some? && (ok ==> fs.dirs == old(fs.dirs)[staged := p.value])
    ensures fs.dirs - {staged} == old(fs.dirs)
  {
    hide CopyFile, Lookup;
    if Project(NATIVE) !in fs.dirs {
      return false;
    }
    ghost var was := fs.dirs;
    fs.dirs := fs.dirs[staged := fs.dirs[Project(NATIVE)]];
    LookupKept(was, staged, fs.dirs[staged], declaration);
    ok := StageFile(fs, staged, DECLARATIONS, declaration);
  }

  /** Stage one target. */
  method StageTarget(fs: FileSystem, imports: seq<Import>, declaration: FilePath, i: nat) returns (ok: bool)
    requires i <= |imports| && TargetOf(imports, i).staged !in fs.dirs
    modifies fs
    ensures var p := Planned(old(fs.dirs), imports, declaration, i);
            ok == p.Some? && (ok ==> fs.dirs == old(fs.dirs)[TargetOf(imports, i).staged := p.value])
    ensures fs.dirs - {TargetOf(imports, i).staged} == old(fs.dirs)
  {
    hide StagedImport, StagedNative;
    if i < |imports| {
      ok := StageImport(fs, imports[i], TargetOf(imports, i).staged);
    } else {
      ok := StageNative(fs, declaration, TargetOf(imports, i).staged);
    }
  }

  /** Stage every target, the native package last. */
  method StageAll(fs: FileSystem, imports: seq<Import>, declaration: FilePath, faults: Faults) returns (ok: bool)
    requires Distinct(imports) && NoTransaction(fs.dirs)
    modifies fs
    ensures ProjectKept(old(fs.dirs), fs.dirs) && forall p | p in fs.dirs :: !p.Backup?
    ensures ok == !StagingThrows(old(fs.dirs), imports, declaration, faults)
    ensures ok ==> forall i: nat | i <= |imports| :: var staged := TargetOf(imports, i).staged;
              staged in fs.dirs && Planned(old(fs.dirs), imports, declaration, i) == Some(fs.dirs[staged])
  {
    hide StagedImport, StagedNative, Missing;
    var i := 0;
    while i <= |imports|
      invariant 0 <= i <= |imports| + 1
      invariant ProjectKept(old(fs.dirs), fs.dirs) && forall p | p in fs.dirs :: !p.Backup?
      invariant forall j: nat | i <= j <= |imports| :: TargetOf(imports, j).staged !in fs.dirs
      invariant forall j: nat | j < i ::
                  (j, Stage) !in faults && Planned(old(fs.dirs), imports, declaration, j).Some?
      invariant forall j: nat | j < i :: var staged := TargetOf(imports, j).staged;
                  staged in fs.dirs && fs.dirs[staged] == Planned(old(fs.dirs), imports, declaration, j).value
    {
      PlannedKept(old(fs.dirs), fs.dirs, imports, declaration, i);
      PlannedUnlessMissing(old(fs.dirs), imports, declaration, i);
      if (i, Stage) in faults {
        return false;
      }
      ok := StageTarget(fs, imports, declaration, i);
      if !ok {
        return false;
      }
      i := i + 1;
    }
    forall i: nat | i <= |imports| ensures !Missing(old(fs.dirs), imports, declaration, i) {
      PlannedUnlessMissing(old(fs.dirs), imports, declaration, i);
    }
    ok := true;
  }

  /** Install one target; when a call throws, put the live directory back and say so. */
  method InstallOne(fs: FileSystem, target: Target, index: nat, faults: Faults) returns (ok: bool)
    requires target.live in fs.dirs && target.staged in fs.dirs && target.backup !in fs.dirs
    requires target.live != target.staged
    modifies fs
    ensures ok == ((index, Mkdir) !in faults && (index, MoveAway) !in faults
                   && (index, Hook) !in faults && (index, MoveIn) !in faults)
    ensures fs.dirs == if ok then (old(fs.dirs) - {target.staged})
                                    [target.backup := old(fs.dirs[target.live])]
                                    [target.live := old(fs.dirs[target.staged])]
                       else old(fs.dirs)
  {
    if (index, Mkdir) in faults || (index, MoveAway) in faults {
      return false;
    }
    fs.Rename(target.live, target.backup);
    if (index, Hook) in faults || (index, MoveIn) in faults {
      fs.Rename(target.backup, target.live);
      return false;
    }
    fs.Rename(target.staged, target.live);
    ok := true;
  }

  /** Undo the installed targets, last first. */
  method RollBack(fs: FileSystem, ghost d0: map<Path, Dir>, targets: seq<Target>, replaced: seq<Target>)
    requires replaced <= targets && Separate(targets) && AllPresent(d0, targets)
    requires Installed(d0, fs.dirs, targets, |replaced|)
    modifies fs
    ensures Installed(d0, fs.dirs, targets, 0)
  {
    hide Installed, Separate;
    var k := |replaced|;
    while k > 0
      invariant 0 <= k <= |replaced| && Installed(d0, fs.dirs, targets, k)
    {
      k := k - 1;
      RestoredNext(d0, fs.dirs, targets, k);
      fs.Remove(replaced[k].live);
      fs.Rename(replaced[k].backup, replaced[k].live);
    }
  }

  /** The last installed target put back. */
  lemma {:induction false} RestoredNext(d0: map<Path, Dir>, d: map<Path, Dir>, targets: seq<Target>, k: nat)
    requires Separate(targets) && AllPresent(d0, targets) && k < |targets| && Installed(d0, d, targets, k + 1)
    ensures var t, d1 := targets[k], d - {targets[k].live};
            t.backup in d1 && Installed(d0, (d1 - {t.backup})[t.live := d1[t.backup]], targets, k)
  {
    var t, d1 := targets[k], d - {targets[k].live};
    Apart(targets, k);
    var d' := (d1 - {t.backup})[t.live := d1[t.backup]];
    forall p | p != t.live && p != t.backup ensures Unchanged(d, d', p) {
    }
    hide Separate;
  }

  /** The directories of one target are no other's. */
  lemma {:induction false} Apart(targets: seq<Target>, k: nat)
    requires Separate(targets) && k < |targets|
    ensures targets[k].live.Project? && targets[k].backup.Backup?
    ensures forall i | 0 <= i < |targets| && i != k ::
              && targets[i].live != targets[k].live && targets[i].live != targets[k].backup
              && targets[i].backup != targets[k].live && targets[i].backup != targets[k].backup
  {
  }

  /** What is still to be installed is staged and has no backup yet. */
  ghost predicate Waiting(d0: map<Path, Dir>, d: map<Path, Dir>, targets: seq<Target>, k: nat)
    requires AllPresent(d0, targets)
  {
    forall i | k <= i < |targets| ::
      && targets[i].staged in d && d[targets[i].staged] == d0[targets[i].staged] && targets[i].backup !in d
  }

  /** A call of the install loop throws, at one of the first `n` targets. */
  ghost predicate InstallThrows(faults: Faults, n: nat) {
    exists i: nat, step: Step | i < n && step != Stage :: (i, step) in faults
  }

  /** The directories of a target, once it is installed. */
  function Swapped(d: map<Path, Dir>, t: Target): map<Path, Dir>
    requires t.live in d && t.staged in d
  {
    (d - {t.staged})[t.backup := d[t.live]][t.live := d[t.staged]]
  }

  /** Installing one target leaves the directories of every other one alone. */
  lemma {:induction false} OthersUnchanged(d: map<Path, Dir>, targets: seq<Target>, k: nat, i: nat)
    requires Separate(targets) && k < |targets| && targets[k].live in d && targets[k].staged in d
    requires i < |targets| && i != k
    ensures var d' := Swapped(d, targets[k]);
            && Unchanged(d, d', targets[i].live)
            && Unchanged(d, d', targets[i].staged)
            && Unchanged(d, d', targets[i].backup)
  {
  }

  lemma {:induction false} RestUnchanged(d: map<Path, Dir>, targets: seq<Target>, k: nat, p: Path)
    requires Separate(targets) && k < |targets| && targets[k].live in d && targets[k].staged in d
    requires p.Project? && p != targets[k].live
    ensures Unchanged(d, Swapped(d, targets[k]), p)
  {
  }

  lemma {:induction false} OwnSwapped(d: map<Path, Dir>, targets: seq<Target>, k: nat)
    requires Separate(targets) && k < |targets| && targets[k].live in d && targets[k].staged in d
    ensures var t, d' := targets[k], Swapped(d, targets[k]);
            && t.live in d' && d'[t.live] == d[t.staged]
            && t.backup in d' && d'[t.backup] == d[t.live]
  {
  }

  lemma {:induction false} InstalledNext(d0: map<Path, Dir>, d: map<Path, Dir>, targets: seq<Target>, k: nat)
    requires Separate(targets) && AllPresent(d0, targets) && k < |targets|
    requires Installed(d0, d, targets, k) && Waiting(d0, d, targets, k)
    ensures targets[k].live in d && targets[k].staged in d
    ensures var d' := Swapped(d, targets[k]); Installed(d0, d', targets, k + 1) && Waiting(d0, d', targets, k + 1)
  {
    hide Separate, Swapped;
    OwnSwapped(d, targets, k);
    var d' := Swapped(d, targets[k]);
    forall i | 0 <= i < |targets| && i != k
      ensures Unchanged(d, d', targets[i].live) && Unchanged(d, d', targets[i].staged)
              && Unchanged(d, d', targets[i].backup)
    {
      OthersUnchanged(d, targets, k, i);
    }
    forall p: Path | p.Project? && p != targets[k].live ensures Unchanged(d, d', p) {
      RestUnchanged(d, targets, k, p);
    }
  }

  lemma {:induction false} NoThrow(faults: Faults, n: nat)
    requires !InstallThrows(faults, n)
    requires (n, Mkdir) !in faults && (n, MoveAway) !in faults && (n, Hook) !in faults
    requires (n, MoveIn) !in faults && (n, Log) !in faults
    ensures !InstallThrows(faults, n + 1)
  {
    forall i: nat, step: Step | i <= n && step != Stage ensures (i, step) !in faults {
      assert step == Log || step in {Mkdir, MoveAway, Hook, MoveIn};
    }
  }

  lemma {:induction false} Throws(faults: Faults, n: nat, m: nat)
    requires n < m
    ensures (exists step | step != Stage :: (n, step) in faults) ==> InstallThrows(faults, m)
  {
  }

  lemma {:induction false} StartsReady(d0: map<Path, Dir>, targets: seq<Target>, faults: Faults)
    requires AllPresent(d0, targets)
    ensures Installed(d0, d0, targets, 0) && !InstallThrows(faults, 0)
  {
  }

  lemma {:induction false} WaitsReady(d0: map<Path, Dir>, d: map<Path, Dir>, targets: seq<Target>, k: nat)
    requires k < |targets| && AllPresent(d0, targets)
    requires Installed(d0, d, targets, k) && Waiting(d0, d, targets, k)
    ensures targets[k].live in d && targets[k].staged in d && targets[k].backup !in d
  {
  }

  /** The install loop: the installed targets, up to the first throw. */
  method InstallAll(fs: FileSystem, ghost d0: map<Path, Dir>, targets: seq<Target>, faults: Faults)
    returns (replaced: seq<Target>, failed: bool)
    requires Separate(targets) && AllPresent(d0, targets)
    requires fs.dirs == d0 && Waiting(d0, d0, targets, 0)
    modifies fs
    ensures replaced <= targets && Installed(d0, fs.dirs, targets, |replaced|)
    ensures failed == InstallThrows(faults, |targets|)
    ensures !failed ==> |replaced| == |targets|
  {
    hide Waiting, Installed, InstallThrows;
    StartsReady(d0, targets, faults);
    replaced, failed := [], false;
    for index := 0 to |targets|
      invariant replaced == targets[..index] && !failed && !InstallThrows(faults, index)
      invariant Installed(d0, fs.dirs, targets, index) && Waiting(d0, fs.dirs, targets, index)
    {
      WaitsReady(d0, fs.dirs, targets, index);
      ghost var was := fs.dirs;
      var ok := InstallOne(fs, targets[index], index, faults);
      Throws(faults, index, |targets|);
      if !ok {
        return replaced, true;
      }
      assert fs.dirs == Swapped(was, targets[index]);
      InstalledNext(d0, was, targets, index);
      replaced := replaced + [targets[index]];
      assert replaced == targets[..index + 1];
      if (index, Log) in faults {
        return replaced, true;
      }
      NoThrow(faults, index);
    }
  }

  predicate Separate(targets: seq<Target>) {
    && (forall i | 0 <= i < |targets| ::
          targets[i].live.Project? && targets[i].staged.Next? && targets[i].backup.Backup?)
    && (forall i, j | 0 <= i < j < |targets| ::
          && targets[i].live != targets[j].live && targets[i].staged != targets[j].staged
          && targets[i].backup != targets[j].backup)
  }

  predicate AllPresent(d0: map<Path, Dir>, targets: seq<Target>) {
    forall i | 0 <= i < |targets| :: targets[i].live in d0 && targets[i].staged in d0
  }

  /** A copy throws while staging: a fault, or a missing file. */
  ghost predicate StagingThrows(dirs: map<Path, Dir>, imports: seq<Import>, declaration: FilePath, faults: Faults) {
    exists i: nat | i <= |imports| :: (i, Stage) in faults || Missing(dirs, imports, declaration, i)
  }

  /** Every live directory became what was planned for it, and nothing else changed. */
  ghost predicate AllInstalled(before: map<Path, Dir>, after: map<Path, Dir>, imports: seq<Import>,
                               declaration: FilePath) {
    && after.Keys == before.Keys
    && (forall i: nat | i <= |imports| :: var live := TargetOf(imports, i).live;
          live in before && Planned(before, imports, declaration, i) == Some(after[live]))
    && (forall p | p in before && (forall i: nat | i <= |imports| :: TargetOf(imports, i).live != p) ::
          after[p] == before[p])
  }

  /** Every binaries directory holds its imported files and manifest, the native package the
      declarations, over what they held before; every other directory is as it was. */
  ghost predicate AllImported(before: map<Path, Dir>, after: map<Path, Dir>, imports: seq<Import>,
                              declaration: FilePath) {
    && after.Keys == before.Keys
    && (forall i | 0 <= i < |imports| :: var live := Project(imports[i].target);
          live in before && IsOverlay(before, before[live], after[live], imports[i]))
    && Project("packages/native") in before
    && IsDeclared(before, before[Project("packages/native")], after[Project("packages/native")], declaration)
    && (forall p | p in before && p != Project("packages/native")
                   && (forall i | 0 <= i < |imports| :: Project(imports[i].target) != p) ::
          after[p] == before[p])
  }

  lemma {:induction false} InstalledIsImported(before: map<Path, Dir>, after: map<Path, Dir>, imports: seq<Import>,
                                               declaration: FilePath)
    requires AllInstalled(before, after, imports, declaration)
    ensures AllImported(before, after, imports, declaration)
  {
    hide IsOverlay, IsDeclared, StagedImport, StagedNative;
    forall i | 0 <= i < |imports|
      ensures var live := Project(imports[i].target);
              live in before && IsOverlay(before, before[live], after[live], imports[i])
    {
      assert TargetOf(imports, i).live == Project(imports[i].target);
      StagedIsOverlay(before, imports[i]);
    }
    assert TargetOf(imports, |imports|).live == Project("packages/native");
    StagedIsDeclared(before, declaration);
    forall p | p in before && p != Project("packages/native")
               && (forall i | 0 <= i < |imports| :: Project(imports[i].target) != p)
      ensures after[p] == before[p]
    {
      forall i: nat | i <= |imports| ensures TargetOf(imports, i).live != p {
      }
    }
  }

  /** All or nothing: the call commits exactly when nothing throws; then every live directory
      is its original overlaid with the imported files and nothing else changed. When anything
      throws, every directory of the project is as it was, and once the installs have begun
      the transaction root is gone too. */
  method Commit(fs: FileSystem, imports: seq<Import>, declaration: FilePath, faults: Faults) returns (outcome: Outcome)
    requires Distinct(imports) && NoTransaction(fs.dirs)
    modifies fs
    ensures outcome == StagingFailed <==> StagingThrows(old(fs.dirs), imports, declaration, faults)
    ensures outcome == Committed <==>
      !StagingThrows(old(fs.dirs), imports, declaration, faults) && !InstallThrows(faults, |imports| + 1)
    ensures outcome == Committed ==> AllImported(old(fs.dirs), fs.dirs, imports, declaration)
    ensures outcome == RolledBack ==> fs.dirs == old(fs.dirs)
    ensures outcome == StagingFailed ==> ProjectKept(old(fs.dirs), fs.dirs)
  {
    hide StagedImport, StagedNative, Installed, Separate, Cleaned, AllInstalled, AllImported, InstallThrows, Missing;
    var staged := StageAll(fs, imports, declaration, faults);
    if !staged {
      return StagingFailed;
    }
    var targets := Targets(imports);
    ghost var d0 := fs.dirs;
    PlannedIsPresent(old(fs.dirs), d0, imports, declaration);
    var replaced, failed := InstallAll(fs, d0, targets, faults);
    if failed {
      RollBack(fs, d0, targets, replaced);
      outcome := RolledBack;
    } else {
      outcome := Committed;
    }
    Settled(old(fs.dirs), d0, fs.dirs, imports, declaration);
    fs.dirs := Cleaned(fs.dirs);
    if outcome == Committed {
      InstalledIsImported(old(fs.dirs), fs.dirs, imports, declaration);
    }
  }

  /** Remove the transaction root. */
  function Cleaned(dirs: map<Path, Dir>): map<Path, Dir> {
    map p | p in dirs && p.Project? :: dirs[p]
  }

  lemma {:induction false} Settled(before: map<Path, Dir>, d0: map<Path, Dir>, d: map<Path, Dir>, imports: seq<Import>,
                                   declaration: FilePath)
    requires NoTransaction(before) && ProjectKept(before, d0)
    requires Separate(Targets(imports)) && AllPresent(d0, Targets(imports))
    requires forall i: nat | i <= |imports| ::
               Planned(before, imports, declaration, i) == Some(d0[TargetOf(imports, i).staged])
    ensures Installed(d0, d, Targets(imports), 0) ==> Cleaned(d) == before
    ensures Installed(d0, d, Targets(imports), |imports| + 1) ==> AllInstalled(before, Cleaned(d), imports, declaration)
  {
    hide AllInstalled, Planned;
    var targets := Targets(imports);
    if Installed(d0, d, targets, 0) {
      KeysSettle(before, d0, d, targets, 0);
      forall p | p in before ensures d[p] == before[p] {
        if i: nat :| i < |targets| && targets[i].live == p {
        }
      }
    }
    if Installed(d0, d, targets, |targets|) {
      KeysSettle(before, d0, d, targets, |targets|);
      AllSettle(before, d0, d, imports, declaration);
    }
  }

  lemma {:induction false} KeysSettle(before: map<Path, Dir>, d0: map<Path, Dir>, d: map<Path, Dir>,
                                      targets: seq<Target>, k: nat)
    requires NoTransaction(before) && ProjectKept(before, d0) && k <= |targets|
    requires Separate(targets) && AllPresent(d0, targets) && Installed(d0, d, targets, k)
    ensures Cleaned(d).Keys == before.Keys
  {
    forall p: Path | p.Project? ensures p in d <==> p in before {
      if i: nat :| i < |targets| && targets[i].live == p {
      }
    }
  }

  lemma {:induction false} AllSettle(before: map<Path, Dir>, d0: map<Path, Dir>, d: map<Path, Dir>,
                                     imports: seq<Import>, declaration: FilePath)
    requires NoTransaction(before) && ProjectKept(before, d0)
    requires Separate(Targets(imports)) && AllPresent(d0, Targets(imports))
    requires forall i: nat | i <= |imports| ::
               Planned(before, imports, declaration, i) == Some(d0[TargetOf(imports, i).staged])
    requires Installed(d0, d, Targets(imports), |imports| + 1) && Cleaned(d).Keys == before.Keys
    ensures AllInstalled(before, Cleaned(d), imports, declaration)
  {
    hide Planned, NoTransaction;
    var targets := Targets(imports);
    forall i: nat | i <= |imports|
      ensures TargetOf(imports, i).live in before
      ensures Planned(before, imports, declaration, i) == Some(Cleaned(d)[TargetOf(imports, i).live])
    {
      assert targets[i] == TargetOf(imports, i);
    }
    forall p | p in before && forall i: nat | i <= |imports| :: TargetOf(imports, i).live != p
      ensures Cleaned(d)[p] == before[p]
    {
      assert forall i: nat | i < |targets| :: targets[i].live != p;
    }
  }

  lemma {:induction false} PlannedIsPresent(before: map<Path, Dir>, d0: map<Path, Dir>, imports: seq<Import>,
                                            declaration: FilePath)
    requires Distinct(imports) && ProjectKept(before, d0)
    requires forall i: nat | i <= |imports| ::
               Planned(before, imports, declaration, i).Some? && TargetOf(imports, i).staged in d0
    ensures Separate(Targets(imports)) && AllPresent(d0, Targets(imports))
  {
    forall i: nat | i <= |imports| ensures TargetOf(imports, i).live in before {
      assert Planned(before, imports, declaration, i).Some?;
    }
  }
}
