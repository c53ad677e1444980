/** What each method of FileSorter does to the directory it is given, as
    functions that follow the method's own control flow: the same scans, the
    same loops, the same points at which an exception ends a phase. Each
    function returns the new directory and the errors that the method's
    `except` clauses catch and log, in the order they are logged. */
module Sorting {
  import opened FsTree
  import opened Classify

  function ErrLog(e: Option<OsError>): (log: seq<OsError>) {
    if e.Some? then [e.value] else []
  }

  /* ---------------- create_date_folder ---------------- */

  /** os.path.getctime(file) turned into a year; a missing file raises. */
  function YearOf(d: Directory, name: string): (r: Result<nat>)
    ensures r.Ok? <==> name in d && d[name].File?
    ensures r.Ok? ==> r.value == d[name].year
    ensures r.Err? ==> r.error == NotFound
  {
    if name in d && d[name].File? then Ok(d[name].year) else Err(NotFound)
  }

  /** The loop that appends the creation year of every listed file to `time`. */
  function CollectYears(d: Directory, items: seq<Item>, time: seq<nat>): (r: Result<seq<nat>>)
    ensures r.Ok? ==> time <= r.value && |r.value| <= |time| + |items|
    ensures r.Err? ==> r.error == NotFound
    decreases |items|
  {
    if items == [] then Ok(time)
    else if !items[0].isFile then CollectYears(d, items[1..], time)
    else match YearOf(d, items[0].name)
      case Err(e) => Err(e)
      case Ok(y) => CollectYears(d, items[1..], time + [y])
  }

  /** The folder names of list(set(time)). */
  function YearNames(time: seq<nat>): (names: set<string>) {
    set y | y in time :: YearName(y)
  }

  /** os.makedirs(exist_ok=True) for each name in turn; the first failure ends the loop. */
  function MakeFolders(d: Directory, names: seq<string>): (r: (Directory, Option<OsError>))
    ensures forall k :: k in d ==> k in r.0 && r.0[k] == d[k]
    ensures r.1.Some? ==> r.1.value == FileExists
    ensures r.1.None? ==> forall k :: k in names ==> k in r.0 && r.0[k].Dir?
    decreases |names|
  {
    if names == [] then (d, None)
    else match MakeDirIn(d, names[0])
      case Err(e) => (d, Some(e))
      case Ok(d') => MakeFolders(d', names[1..])
  }

  /** create_date_folder: one folder per distinct creation year of the files of `d`. */
  function CreateDateFolder(d: Directory, order: Enumerator): (r: (Directory, seq<OsError>))
    ensures forall k :: k in d ==> k in r.0 && r.0[k] == d[k]
    ensures |r.1| <= 1
  {
    match CollectYears(d, Snapshot(d, order), [])
    case Err(e) => (d, [e])
    case Ok(time) =>
      var (d', err) := MakeFolders(d, order(YearNames(time)));
      (d', ErrLog(err))
  }

  /* ---------------- sort_file_date ---------------- */

  /** The loop of sort_file_date: each listed file into the folder of its year. */
  function MoveByYear(d: Directory, items: seq<Item>): (r: (Directory, Option<OsError>))
    ensures r.0.Keys <= d.Keys
    ensures r.1.None? ==> forall i :: 0 <= i < |items| && items[i].isFile ==> items[i].name !in r.0
    decreases |items|
  {
    if items == [] then (d, None)
    else if !items[0].isFile then MoveByYear(d, items[1..])
    else match YearOf(d, items[0].name)
      case Err(e) => (d, Some(e))
      case Ok(y) =>
        match MoveIn(d, items[0].name, YearName(y))
        case Err(e) => (d, Some(e))
        case Ok(d') => MoveByYear(d', items[1..])
  }

  /** sort_file_date: create the year folders, then move the files, listing `d` anew. */
  function SortFileDate(d: Directory, order: Enumerator): (r: (Directory, seq<OsError>))
    ensures |r.1| <= 2
  {
    var (d1, log) := CreateDateFolder(d, order);
    var (d2, err) := MoveByYear(d1, Snapshot(d1, order));
    (d2, log + ErrLog(err))
  }

  /* ---------------- create_extensions_folders ---------------- */

  /** The categories of a file's extension, as the inline lookup finds them. */
  function CategoriesOf(m: ExtensionMap, name: string): (cats: seq<string>)
    ensures |cats| <= |m|
  {
    Matches(m, Extension(name))
  }

  /** The loop that adds to `existing_extensions` every category a listed file matches. */
  function CollectCategories(m: ExtensionMap, items: seq<Item>, found: set<string>): (r: set<string>)
    ensures found <= r
    decreases |items|
  {
    if items == [] then found
    else if !items[0].isFile then CollectCategories(m, items[1..], found)
    else CollectCategories(m, items[1..], found + set c | c in CategoriesOf(m, items[0].name))
  }

  /** create_extensions_folders: one folder per category matched by a file of `d`. */
  function CreateExtensionsFolders(d: Directory, m: ExtensionMap, order: Enumerator): (r: (Directory, seq<OsError>))
    ensures forall k :: k in d ==> k in r.0 && r.0[k] == d[k]
    ensures |r.1| <= 1
  {
    var found := CollectCategories(m, Snapshot(d, order), {});
    var (d', err) := MakeFolders(d, order(found));
    (d', ErrLog(err))
  }

  /* ---------------- sort_file_extensions ---------------- */

  /** The inner loop over the categories of one file: makedirs, then move, for
      every matching category; there is no `break`. */
  function MoveToCategories(d: Directory, name: string, cats: seq<string>): (r: (Directory, Option<OsError>))
    ensures forall k :: k in d && k != name ==> k in r.0
    ensures r.1.None? && cats != [] ==> name !in r.0
    decreases |cats|
  {
    if cats == [] then (d, None)
    else match MakeDirIn(d, cats[0])
      case Err(e) => (d, Some(e))
      case Ok(d1) =>
        match MoveIn(d1, name, cats[0])
        case Err(e) => (d1, Some(e))
        case Ok(d2) => MoveToCategories(d2, name, cats[1..])
  }

  /** A scan loop of sort_file_extensions: each listed file to its categories. */
  function MoveByCategory(d: Directory, m: ExtensionMap, items: seq<Item>): (r: (Directory, Option<OsError>))
    ensures forall k :: k in d && k !in ListedNames(items) ==> k in r.0
    decreases |items|
  {
    if items == [] then (d, None)
    else if !items[0].isFile then MoveByCategory(d, m, items[1..])
    else
      var (d', err) := MoveToCategories(d, items[0].name, CategoriesOf(m, items[0].name));
      if err.Some? then (d', err) else MoveByCategory(d', m, items[1..])
  }

  /** One subdirectory in the date-aware branch: its own category folders
      (errors caught inside), then its files; an error raised by the listing or
      a move is returned and ends the phase. */
  function SortSubdirectory(d: Directory, sub: string, m: ExtensionMap, order: Enumerator)
    : (r: (Directory, seq<OsError>, Option<OsError>))
    ensures r.0.Keys == d.Keys
    ensures forall k :: k in d && (k != sub || d[k].File?) ==> r.0[k] == d[k]
  {
    match Child(d, sub)
    case Err(e) => (d, [e], Some(e))
    case Ok(s) =>
      var (s1, log) := CreateExtensionsFolders(s, m, order);
      var (s2, err) := MoveByCategory(s1, m, Snapshot(s1, order));
      (d[sub := Dir(s2)], log, err)
  }

  /** The loop over the listed subdirectories in the date-aware branch. */
  function SortSubdirectories(d: Directory, m: ExtensionMap, order: Enumerator, items: seq<Item>)
    : (r: (Directory, seq<OsError>, Option<OsError>))
    ensures r.0.Keys == d.Keys
    ensures forall k :: k in d && d[k].File? ==> r.0[k] == d[k]
    decreases |items|
  {
    if items == [] then (d, [], None)
    else if items[0].isFile then SortSubdirectories(d, m, order, items[1..])
    else
      var (d1, log1, err) := SortSubdirectory(d, items[0].name, m, order);
      if err.Some? then (d1, log1, err)
      else
        var (d2, log2, err2) := SortSubdirectories(d1, m, order, items[1..]);
        (d2, log1 + log2, err2)
  }

  /** A subdirectory sorted without error: its log comes first, then the rest of the loop's. */
  lemma SortSubdirectoriesCons(d: Directory, m: ExtensionMap, order: Enumerator, items: seq<Item>)
    requires items != [] && !items[0].isFile
    requires SortSubdirectory(d, items[0].name, m, order).2.None?
    ensures var step := SortSubdirectory(d, items[0].name, m, order);
      var rest := SortSubdirectories(step.0, m, order, items[1..]);
      SortSubdirectories(d, m, order, items) == (rest.0, step.1 + rest.1, rest.2)
  {
  }

  /** A listed file is skipped by the loop over subdirectories. */
  lemma SortSubdirectoriesSkip(d: Directory, m: ExtensionMap, order: Enumerator, items: seq<Item>)
    requires items != [] && items[0].isFile
    ensures SortSubdirectories(d, m, order, items) == SortSubdirectories(d, m, order, items[1..])
  {
  }

  /** A subdirectory whose sorting raises ends the loop with its outcome. */
  lemma SortSubdirectoriesStop(d: Directory, m: ExtensionMap, order: Enumerator, items: seq<Item>)
    requires items != [] && !items[0].isFile
    requires SortSubdirectory(d, items[0].name, m, order).2.Some?
    ensures SortSubdirectories(d, m, order, items) == SortSubdirectory(d, items[0].name, m, order)
  {
  }

  /** sort_file_extensions(path, bydate). */
  function SortFileExtensions(d: Directory, byDate: bool, m: ExtensionMap, order: Enumerator)
    : (r: (Directory, seq<OsError>))
    ensures !byDate ==> |r.1| <= 2
  {
    var (d1, log1) := CreateExtensionsFolders(d, m, order);
    if byDate then
      var (d2, log2, err) := SortSubdirectories(d1, m, order, Snapshot(d1, order));
      if err.Some? then (d2, log1 + log2 + [err.value])
      else
        var (d3, err3) := MoveByCategory(d2, m, Snapshot(d2, order));
        (d3, log1 + log2 + ErrLog(err3))
    else
      var (d2, err) := MoveByCategory(d1, m, Snapshot(d1, order));
      (d2, log1 + ErrLog(err))
  }

  /* ---------------- the same phases at a path of the whole tree ---------------- */

  /** The outcome `r` of a phase on the folder at `p`, put back into the whole tree. */
  function AtPath(root: Directory, p: Path, r: (Directory, seq<OsError>)): (r': (Directory, seq<OsError>))
    requires Resolve(root, p).Ok?
  {
    (Replace(root, p, r.0), r.1)
  }

  function CreateDateFolderAt(root: Directory, p: Path, order: Enumerator): (r: (Directory, seq<OsError>))
    ensures Resolve(root, p).Err? ==> r.0 == root && r.1 == [Resolve(root, p).error]
    ensures Resolve(root, p).Ok? ==> Resolve(r.0, p) == Ok(CreateDateFolder(Resolve(root, p).value, order).0)
  {
    match Resolve(root, p)
    case Err(e) => (root, [e])
    case Ok(d) => AtPath(root, p, CreateDateFolder(d, order))
  }

  /** sort_file_date at `p`: the listing of a missing path raises once in the
      folder helper and once more in the phase itself. */
  function SortFileDateAt(root: Directory, p: Path, order: Enumerator): (r: (Directory, seq<OsError>))
    ensures Resolve(root, p).Err? ==> r.0 == root && r.1 == [Resolve(root, p).error, Resolve(root, p).error]
    ensures Resolve(root, p).Ok? ==> Resolve(r.0, p) == Ok(SortFileDate(Resolve(root, p).value, order).0)
  {
    match Resolve(root, p)
    case Err(e) => (root, [e, e])
    case Ok(d) => AtPath(root, p, SortFileDate(d, order))
  }

  function CreateExtensionsFoldersAt(root: Directory, p: Path, m: ExtensionMap, order: Enumerator)
    : (r: (Directory, seq<OsError>))
    ensures Resolve(root, p).Err? ==> r.0 == root && r.1 == [Resolve(root, p).error]
    ensures Resolve(root, p).Ok? ==> Resolve(r.0, p) == Ok(CreateExtensionsFolders(Resolve(root, p).value, m, order).0)
  {
    match Resolve(root, p)
    case Err(e) => (root, [e])
    case Ok(d) => AtPath(root, p, CreateExtensionsFolders(d, m, order))
  }

  function MoveByCategoryAt(root: Directory, p: Path, m: ExtensionMap, order: Enumerator)
    : (r: (Directory, Option<OsError>))
    ensures Resolve(root, p).Err? ==> r.0 == root && r.1 == Some(Resolve(root, p).error)
    ensures Resolve(root, p).Ok? ==>
      var d := Resolve(root, p).value; Resolve(r.0, p) == Ok(MoveByCategory(d, m, Snapshot(d, order)).0)
  {
    match Resolve(root, p)
    case Err(e) => (root, Some(e))
    case Ok(d) =>
      var (d', err) := MoveByCategory(d, m, Snapshot(d, order));
      (Replace(root, p, d'), err)
  }

  /** sort_file_extensions at `p`: as for sort_file_date, a missing path is
      logged twice. */
  function SortFileExtensionsAt(root: Directory, p: Path, byDate: bool, m: ExtensionMap, order: Enumerator)
    : (r: (Directory, seq<OsError>))
    ensures Resolve(root, p).Err? ==> r.0 == root && r.1 == [Resolve(root, p).error, Resolve(root, p).error]
    ensures Resolve(root, p).Ok? ==> Resolve(r.0, p) == Ok(SortFileExtensions(Resolve(root, p).value, byDate, m, order).0)
  {
    match Resolve(root, p)
    case Err(e) => (root, [e, e])
    case Ok(d) => AtPath(root, p, SortFileExtensions(d, byDate, m, order))
  }

  /* ---------------- sort_files ---------------- */

  /** One entry of config["directories"]; `path` is None when the entry has no
      "path" key (the source then uses "", which no scan can open), and a
      missing "by_date" or "by_extension" is false. A "path" whose value is
      null is not the same as a missing key: the source raises TypeError on it,
      which this type does not represent. */
  datatype DirectoryConfig = DirectoryConfig(path: Option<Path>, byDate: bool, byExtension: bool)

  /** The body of the loop of sort_files for one configured directory. */
  function SortDirectory(root: Directory, c: DirectoryConfig, m: ExtensionMap, order: Enumerator)
    : (r: (Directory, seq<OsError>))
    ensures !c.byDate && !c.byExtension ==> r.0 == root && r.1 == []
  {
    match c.path
    case None =>
      var log1: seq<OsError> := if c.byDate then [NotFound, NotFound] else [];
      var log2: seq<OsError> := if c.byExtension then [NotFound, NotFound] else [];
      assert !c.byDate && !c.byExtension ==> |log1 + log2| == 0;
      (root, log1 + log2)
    case Some(p) =>
      var (r1, log1) := if c.byDate then SortFileDateAt(root, p, order) else (root, []);
      var (r2, log2) := if c.byExtension then SortFileExtensionsAt(r1, p, c.byDate, m, order) else (r1, []);
      assert !c.byDate && !c.byExtension ==> |log1 + log2| == 0;
      (r2, log1 + log2)
  }

  /** sort_files: the configured directories in configuration order. */
  function SortFiles(root: Directory, configs: seq<DirectoryConfig>, m: ExtensionMap, order: Enumerator)
    : (r: (Directory, seq<OsError>))
    decreases |configs|
  {
    if configs == [] then (root, [])
    else
      var (r1, log1) := SortDirectory(root, configs[0], m, order);
      var (r2, log2) := SortFiles(r1, configs[1..], m, order);
      (r2, log1 + log2)
  }
}
