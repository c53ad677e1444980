/** The FileSorter class: each method walks the file system with the same
    scans, loops and moves as its Python counterpart, and is proved to do
    exactly what the matching function of module Sorting says. */
module Organizer {
  import opened FsTree
  import opened Classify
  import opened Sorting
  import opened Os

  /** Opening and replacing a folder of the folder at `p`, after the folder at
      `p` has been replaced by `cur`. */
  lemma SubPath(root0: Directory, p: Path, cur: Directory, sub: string, x: Directory)
    requires Resolve(root0, p).Ok? && Child(cur, sub).Ok?
    ensures Resolve(Replace(root0, p, cur), p + [sub]) == Child(cur, sub)
    ensures Replace(Replace(root0, p, cur), p + [sub], x) == Replace(root0, p, cur[sub := Dir(x)])
  {
    ResolveChild(Replace(root0, p, cur), p, sub);
    ReplaceChild(Replace(root0, p, cur), p, sub, x);
    ReplaceTwice(root0, p, cur, cur[sub := Dir(x)]);
  }

  class FileSorter {
    /** config["directories"], in the order of the JSON object. */
    const config: seq<DirectoryConfig>
    /** The category -> extensions map, in the order of the JSON object. */
    const fileExtensions: ExtensionMap

    /** Takes the parsed configuration and extension map (see README). */
    constructor (config: seq<DirectoryConfig>, fileExtensions: ExtensionMap)
      ensures this.config == config && this.fileExtensions == fileExtensions
    {
      this.config := config;
      this.fileExtensions := fileExtensions;
    }

    /** os.makedirs(p/name, exist_ok=True) for each of `names` in turn; the first
        failure is returned and ends the loop. */
    method MakeFoldersIn(fs: FileSystem, p: Path, names: seq<string>) returns (err: Option<OsError>)
      requires Resolve(fs.root, p).Ok?
      modifies fs
      ensures var r := MakeFolders(Resolve(old(fs.root), p).value, names);
        fs.root == Replace(old(fs.root), p, r.0) && err == r.1
    {
      ghost var root0 := fs.root;
      ghost var d := Resolve(fs.root, p).value;
      ghost var cur := d;
      ReplaceResolved(root0, p);
      var j := 0;
      while j < |names|
        invariant 0 <= j <= |names|
        invariant fs.root == Replace(root0, p, cur)
        invariant MakeFolders(cur, names[j..]) == MakeFolders(d, names)
      {
        assert names[j..][1..] == names[j + 1..];
        err := fs.MakeDirs(p, names[j]);
        if err.Some? {
          return;
        }
        ReplaceTwice(root0, p, cur, MakeDirIn(cur, names[j]).value);
        cur := MakeDirIn(cur, names[j]).value;
        j := j + 1;
      }
      err := None;
    }

    /** create_date_folder(path). */
    method CreateDateFolder(fs: FileSystem, path: Path) returns (log: seq<OsError>)
      modifies fs
      ensures (fs.root, log) == CreateDateFolderAt(old(fs.root), path, fs.order)
    {
      var listing := fs.ScanDir(path);
      if listing.Err? {
        return [listing.error];
      }
      var items := listing.value;
      ghost var d := Resolve(fs.root, path).value;
      ReplaceResolved(fs.root, path);
      var time: seq<nat> := [];
      var i := 0;
      while i < |items|
        invariant 0 <= i <= |items|
        invariant fs.root == old(fs.root)
        invariant CollectYears(d, items[i..], time) == CollectYears(d, items, [])
      {
        assert items[i..][1..] == items[i + 1..];
        if items[i].isFile {
          var year := fs.CreationYear(path, items[i].name);
          if year.Err? {
            return [year.error];
          }
          time := time + [year.value];
        }
        i := i + 1;
      }
      var err := MakeFoldersIn(fs, path, fs.order(YearNames(time)));
      log := ErrLog(err);
    }

    /** sort_file_date(path). */
    method SortFileDate(fs: FileSystem, path: Path) returns (log: seq<OsError>)
      modifies fs
      ensures (fs.root, log) == SortFileDateAt(old(fs.root), path, fs.order)
    {
      ghost var root0 := fs.root;
      log := CreateDateFolder(fs, path);
      assert Resolve(root0, path).Err? ==> fs.root == root0 && log == [Resolve(root0, path).error];
      assert Resolve(root0, path).Ok? ==> Resolve(fs.root, path).Ok?;
      var listing := fs.ScanDir(path);
      if listing.Err? {
        assert [listing.error] + [listing.error] == [listing.error, listing.error];
        return log + [listing.error];
      }
      assert Resolve(root0, path).Ok?;
      var items := listing.value;
      ghost var d1 := Resolve(fs.root, path).value;
      ghost var cur := d1;
      var i := 0;
      while i < |items|
        invariant 0 <= i <= |items|
        invariant fs.root == Replace(root0, path, cur)
        invariant MoveByYear(cur, items[i..]) == MoveByYear(d1, items)
      {
        assert items[i..][1..] == items[i + 1..];
        if items[i].isFile {
          var year := fs.CreationYear(path, items[i].name);
          if year.Err? {
            return log + [year.error];
          }
          var err := fs.Move(path, items[i].name, YearName(year.value));
          if err.Some? {
            return log + [err.value];
          }
          ReplaceTwice(root0, path, cur, MoveIn(cur, items[i].name, YearName(year.value)).value);
          cur := MoveIn(cur, items[i].name, YearName(year.value)).value;
        }
        i := i + 1;
      }
      assert items[i..] == [] && log + [] == log;
    }

    /** The inline lookup of create_extensions_folders (lines 135-138): every
        category whose extension list holds the extension of `name`. */
    method CategoriesOfFile(name: string) returns (found: set<string>)
      ensures forall c :: c in found <==>
        exists k :: 0 <= k < |fileExtensions| && fileExtensions[k].0 == c && Extension(name) in fileExtensions[k].1
      ensures found == set c | c in CategoriesOf(fileExtensions, name)
    {
      var extension := Extension(name);
      found := {};
      var k := 0;
      while k < |fileExtensions|
        invariant 0 <= k <= |fileExtensions|
        invariant found + (set c | c in Matches(fileExtensions[k..], extension)) ==
                  set c | c in Matches(fileExtensions, extension)
      {
        assert fileExtensions[k..][1..] == fileExtensions[k + 1..];
        if extension in fileExtensions[k].1 {
          found := found + {fileExtensions[k].0};
        }
        k := k + 1;
      }
      assert fileExtensions[k..] == [];
      MatchesMembers(fileExtensions, extension);
      assert forall c :: c in found <==> c in Matches(fileExtensions, extension);
    }

    /** create_extensions_folders(path). */
    method CreateExtensionsFolders(fs: FileSystem, path: Path) returns (log: seq<OsError>)
      modifies fs
      ensures (fs.root, log) == CreateExtensionsFoldersAt(old(fs.root), path, fileExtensions, fs.order)
    {
      var listing := fs.ScanDir(path);
      if listing.Err? {
        return [listing.error];
      }
      var items := listing.value;
      var found: set<string> := {};
      var i := 0;
      while i < |items|
        invariant 0 <= i <= |items|
        invariant fs.root == old(fs.root)
        invariant CollectCategories(fileExtensions, items[i..], found) ==
                  CollectCategories(fileExtensions, items, {})
      {
        assert items[i..][1..] == items[i + 1..];
        if items[i].isFile {
          var cats := CategoriesOfFile(items[i].name);
          found := found + cats;
        }
        i := i + 1;
      }
      var err := MakeFoldersIn(fs, path, fs.order(found));
      log := ErrLog(err);
    }

    /** The inner loop of a scan loop of sort_file_extensions (lines 59-64 and
        69-74): for each category listing the extension of `name`, in map order,
        makedirs and move; there is no `break`, so a second match fails. */
    method MoveToCategoriesOf(fs: FileSystem, p: Path, name: string) returns (err: Option<OsError>)
      requires Resolve(fs.root, p).Ok?
      modifies fs
      ensures var r := MoveToCategories(Resolve(old(fs.root), p).value, name, CategoriesOf(fileExtensions, name));
        fs.root == Replace(old(fs.root), p, r.0) && err == r.1
    {
      ghost var root0 := fs.root;
      ghost var start := Resolve(fs.root, p).value;
      ghost var cur := start;
      ReplaceResolved(root0, p);
      var extension := Extension(name);
      var k := 0;
      while k < |fileExtensions|
        invariant 0 <= k <= |fileExtensions|
        invariant fs.root == Replace(root0, p, cur)
        invariant MoveToCategories(cur, name, Matches(fileExtensions[k..], extension)) ==
                  MoveToCategories(start, name, Matches(fileExtensions, extension))
      {
        assert fileExtensions[k..][1..] == fileExtensions[k + 1..];
        if extension in fileExtensions[k].1 {
          var category := fileExtensions[k].0;
          err := fs.MakeDirs(p, category);
          if err.Some? {
            return;
          }
          ghost var made := MakeDirIn(cur, category).value;
          ReplaceTwice(root0, p, cur, made);
          err := fs.Move(p, name, category);
          if err.Some? {
            return;
          }
          ReplaceTwice(root0, p, made, MoveIn(made, name, category).value);
          cur := MoveIn(made, name, category).value;
        }
        k := k + 1;
      }
      err := None;
    }

    /** A scan loop of sort_file_extensions over the folder at `p` (lines 56-64
        and 66-74): each listed file to its categories. An exception is
        returned to the caller. */
    method MoveFilesByCategory(fs: FileSystem, p: Path) returns (err: Option<OsError>)
      modifies fs
      ensures (fs.root, err) == MoveByCategoryAt(old(fs.root), p, fileExtensions, fs.order)
    {
      ghost var root0 := fs.root;
      var listing := fs.ScanDir(p);
      if listing.Err? {
        return Some(listing.error);
      }
      var items := listing.value;
      ghost var d := Resolve(fs.root, p).value;
      ghost var cur := d;
      ReplaceResolved(root0, p);
      var i := 0;
      while i < |items|
        invariant 0 <= i <= |items|
        invariant fs.root == Replace(root0, p, cur)
        invariant MoveByCategory(cur, fileExtensions, items[i..]) == MoveByCategory(d, fileExtensions, items)
      {
        assert items[i..][1..] == items[i + 1..];
        if items[i].isFile {
          ghost var step := MoveToCategories(cur, items[i].name, CategoriesOf(fileExtensions, items[i].name));
          err := MoveToCategoriesOf(fs, p, items[i].name);
          ReplaceTwice(root0, p, cur, step.0);
          cur := step.0;
          if err.Some? {
            return;
          }
        }
        i := i + 1;
      }
      err := None;
    }

    /** One pass of the date-aware loop of sort_file_extensions (lines 52-64)
        over the subdirectory `name` of the folder at `path`. */
    method SortSubdirectory(fs: FileSystem, path: Path, name: string) returns (log: seq<OsError>, err: Option<OsError>)
      requires Resolve(fs.root, path).Ok?
      modifies fs
      ensures var r := Sorting.SortSubdirectory(Resolve(old(fs.root), path).value, name, fileExtensions, fs.order);
        fs.root == Replace(old(fs.root), path, r.0) && log == r.1 && err == r.2
    {
      ghost var root0 := fs.root;
      ghost var before := Resolve(fs.root, path).value;
      ghost var s1, s2: Directory;
      ResolveChild(root0, path, name);
      ReplaceResolved(root0, path);
      if Child(before, name).Ok? {
        s1 := Sorting.CreateExtensionsFolders(Child(before, name).value, fileExtensions, fs.order).0;
        s2 := MoveByCategory(s1, fileExtensions, Snapshot(s1, fs.order)).0;
        SubPath(root0, path, before, name, s1);
        SubPath(root0, path, before[name := Dir(s1)], name, s2);
        assert before[name := Dir(s1)][name := Dir(s2)] == before[name := Dir(s2)];
      }
      var sub := path + [name];
      log := CreateExtensionsFolders(fs, sub);
      err := MoveFilesByCategory(fs, sub);
    }

    /** The date-aware loop of sort_file_extensions (lines 51-64) over a listing
        `items` of the folder at `path`: each listed folder is sorted in turn, and
        the first error raised ends the loop. */
    method SortSubdirectories(fs: FileSystem, path: Path, items: seq<Item>) returns (log: seq<OsError>, err: Option<OsError>)
      requires Resolve(fs.root, path).Ok?
      modifies fs
      ensures var r := Sorting.SortSubdirectories(Resolve(old(fs.root), path).value, fileExtensions, fs.order, items);
        fs.root == Replace(old(fs.root), path, r.0) && log == r.1 && err == r.2
    {
      ghost var root0 := fs.root;
      ghost var d1 := Resolve(fs.root, path).value;
      ghost var cur := d1;
      ghost var all := Sorting.SortSubdirectories(d1, fileExtensions, fs.order, items);
      ReplaceResolved(root0, path);
      log := [];
      var i := 0;
      while i < |items|
        invariant 0 <= i <= |items|
        invariant fs.root == Replace(root0, path, cur)
        invariant var rest := Sorting.SortSubdirectories(cur, fileExtensions, fs.order, items[i..]);
          rest.0 == all.0 && log + rest.1 == all.1 && rest.2 == all.2
      {
        assert items[i..][1..] == items[i + 1..];
        if items[i].isFile {
          SortSubdirectoriesSkip(cur, fileExtensions, fs.order, items[i..]);
        } else {
          ghost var step := Sorting.SortSubdirectory(cur, items[i].name, fileExtensions, fs.order);
          var subLog, subErr := SortSubdirectory(fs, path, items[i].name);
          ReplaceTwice(root0, path, cur, step.0);
          if subErr.Some? {
            SortSubdirectoriesStop(cur, fileExtensions, fs.order, items[i..]);
            return log + subLog, subErr;
          }
          ghost var after := Sorting.SortSubdirectories(step.0, fileExtensions, fs.order, items[i + 1..]);
          SortSubdirectoriesCons(cur, fileExtensions, fs.order, items[i..]);
          assert (log + subLog) + after.1 == log + (subLog + after.1);
          cur := step.0;
          log := log + subLog;
        }
        i := i + 1;
      }
      assert items[i..] == [] && log + [] == log;
      err := None;
    }

    /** sort_file_extensions(path, bydate). */
    method SortFileExtensions(fs: FileSystem, path: Path, byDate: bool) returns (log: seq<OsError>)
      modifies fs
      ensures (fs.root, log) == SortFileExtensionsAt(old(fs.root), path, byDate, fileExtensions, fs.order)
    {
      ghost var root0 := fs.root;
      log := CreateExtensionsFolders(fs, path);
      assert Resolve(root0, path).Err? ==> fs.root == root0 && log == [Resolve(root0, path).error];
      assert Resolve(root0, path).Ok? ==> Resolve(fs.root, path).Ok?;
      if byDate {
        var listing := fs.ScanDir(path);
        if listing.Err? {
          assert [listing.error] + [listing.error] == [listing.error, listing.error];
          return log + [listing.error];
        }
        ghost var created := Sorting.CreateExtensionsFolders(Resolve(root0, path).value, fileExtensions, fs.order).0;
        assert fs.root == Replace(root0, path, created) && Resolve(fs.root, path) == Ok(created);
        var subLog, subErr := SortSubdirectories(fs, path, listing.value);
        ReplaceTwice(root0, path, created, Resolve(fs.root, path).value);
        if subErr.Some? {
          return log + subLog + [subErr.value];
        }
        log := log + subLog;
      }
      ghost var before := fs.root;
      var err := MoveFilesByCategory(fs, path);
      if Resolve(root0, path).Ok? {
        ReplaceTwice(root0, path, Resolve(before, path).value, Resolve(fs.root, path).value);
        ghost var d := Resolve(root0, path).value;
        ghost var created := Sorting.CreateExtensionsFolders(d, fileExtensions, fs.order);
        ghost var last := Resolve(before, path).value;
        assert !byDate ==> last == created.0;
        ghost var final := MoveByCategory(last, fileExtensions, Snapshot(last, fs.order));
        assert fs.root == Replace(root0, path, final.0);
        assert err == final.1;
      } else {
        assert log + ErrLog(err) == [err.value, err.value];
      }
      log := log + ErrLog(err);
    }

    /** The body of the loop of sort_files (lines 26-34) for one configured directory. */
    method SortDirectory(fs: FileSystem, c: DirectoryConfig) returns (log: seq<OsError>)
      modifies fs
      ensures (fs.root, log) == Sorting.SortDirectory(old(fs.root), c, fileExtensions, fs.order)
    {
      log := [];
      if c.path.None? {
        log := (if c.byDate then [NotFound, NotFound] else []) + (if c.byExtension then [NotFound, NotFound] else []);
      } else {
        ghost var root0 := fs.root;
        var p := c.path.value;
        if c.byDate {
          log := SortFileDate(fs, p);
        }
        assert !c.byDate ==> log == [];
        ghost var mid := (fs.root, log);
        assert mid == if c.byDate then SortFileDateAt(root0, p, fs.order) else (root0, []);
        if c.byExtension {
          var l := SortFileExtensions(fs, p, c.byDate);
          log := log + l;
          assert (fs.root, l) == SortFileExtensionsAt(mid.0, p, c.byDate, fileExtensions, fs.order);
        } else {
          assert log + [] == log;
        }
      }
    }

    /** sort_files(): each configured directory in turn. */
    method SortFiles(fs: FileSystem) returns (log: seq<OsError>)
      modifies fs
      ensures (fs.root, log) == Sorting.SortFiles(old(fs.root), config, fileExtensions, fs.order)
    {
      log := [];
      var i := 0;
      while i < |config|
        invariant 0 <= i <= |config|
        invariant var rest := Sorting.SortFiles(fs.root, config[i..], fileExtensions, fs.order);
          var all := Sorting.SortFiles(old(fs.root), config, fileExtensions, fs.order);
          rest.0 == all.0 && log + rest.1 == all.1
      {
        assert config[i..][1..] == config[i + 1..];
        var dirLog := SortDirectory(fs, config[i]);
        log := log + dirLog;
        i := i + 1;
      }
      assert config[i..] == [] && log + [] == log;
    }
  }
}
