/** What sort_files achieves for a configured directory: the date phase and the
    extension phase compose, a missing directory is left alone, and with both
    options on every file ends up in the category folder inside its year
    folder. */
module RunSorting {
  import opened FsTree
  import opened Classify
  import opened Sorting
  import opened Placement
  import opened DateSorting
  import opened ExtensionSorting

  /** The enabled phases of one configured directory, run on that directory alone. */
  function Phases(d: Directory, byDate: bool, byExtension: bool, m: ExtensionMap, order: Enumerator)
    : (r: (Directory, seq<OsError>))
  {
    var (d1, log1) := if byDate then SortFileDate(d, order) else (d, []);
    var (d2, log2) := if byExtension then SortFileExtensions(d1, byDate, m, order) else (d1, []);
    (d2, log1 + log2)
  }

  /** The configured directories are handled one after another: sorting a list
      of them is sorting its first part, then its second part. */
  lemma {:induction false} SortFilesAppend(root: Directory, a: seq<DirectoryConfig>, b: seq<DirectoryConfig>,
                                           m: ExtensionMap, order: Enumerator)
    ensures var (r1, log1) := SortFiles(root, a, m, order);
      var (r2, log2) := SortFiles(r1, b, m, order);
      SortFiles(root, a + b, m, order) == (r2, log1 + log2)
    decreases |a|
  {
    if a == [] {
      assert a + b == b;
      var log2 := SortFiles(root, b, m, order).1;
      assert SortFiles(root, a, m, order).1 + log2 == log2;
    } else {
      var (r1, log1) := SortDirectory(root, a[0], m, order);
      assert (a + b)[0] == a[0] && (a + b)[1..] == a[1..] + b;
      SortFilesAppend(r1, a[1..], b, m, order);
      var (r2, log2) := SortFiles(r1, a[1..], m, order);
      var (r3, log3) := SortFiles(r2, b, m, order);
      assert log1 + (log2 + log3) == (log1 + log2) + log3;
    }
  }

  /** With no phase enabled in any configuration, sort_files changes nothing
      and logs nothing. */
  lemma {:induction false} SortFilesNothingEnabled(root: Directory, configs: seq<DirectoryConfig>,
                                                   m: ExtensionMap, order: Enumerator)
    requires forall i :: 0 <= i < |configs| ==> !configs[i].byDate && !configs[i].byExtension
    ensures SortFiles(root, configs, m, order) == (root, [])
    decreases |configs|
  {
    if configs != [] {
      SortFilesNothingEnabled(root, configs[1..], m, order);
    }
  }

  /** A configured directory that does not exist is left alone: the tree does
      not change, and each enabled phase logs the error twice (once in its
      folder helper, once itself). */
  lemma SortDirectoryMissing(root: Directory, c: DirectoryConfig, m: ExtensionMap, order: Enumerator)
    requires c.path.None? || Resolve(root, c.path.value).Err?
    ensures var (r, log) := SortDirectory(root, c, m, order);
      && r == root
      && |log| == (if c.byDate then 2 else 0) + (if c.byExtension then 2 else 0)
      && (c.path.None? ==> forall i :: 0 <= i < |log| ==> log[i] == NotFound)
      && (c.path.Some? ==> forall i :: 0 <= i < |log| ==> log[i] == Resolve(root, c.path.value).error)
  {
  }

  /** A directory that exists is sorted in place: the enabled phases run on it
      alone, and the rest of the tree is kept. */
  lemma SortDirectoryInPlace(root: Directory, c: DirectoryConfig, m: ExtensionMap, order: Enumerator)
    requires c.path.Some? && Resolve(root, c.path.value).Ok?
    ensures var p := c.path.value;
      var (d', log) := Phases(Resolve(root, p).value, c.byDate, c.byExtension, m, order);
      SortDirectory(root, c, m, order) == (Replace(root, p, d'), log)
  {
    var p := c.path.value;
    var d := Resolve(root, p).value;
    var (d1, log1) := if c.byDate then SortFileDate(d, order) else (d, []);
    var r1 := Replace(root, p, d1);
    if !c.byDate {
      ReplaceResolved(root, p);
    }
    assert SortFileDateAt(root, p, order) == (Replace(root, p, SortFileDate(d, order).0), SortFileDate(d, order).1);
    assert (if c.byDate then SortFileDateAt(root, p, order) else (root, [])) == (r1, log1);
    assert Resolve(r1, p) == Ok(d1);
    if c.byExtension {
      var (d2, log2) := SortFileExtensions(d1, c.byDate, m, order);
      ReplaceTwice(root, p, d1, d2);
    } else {
      assert log1 + [] == log1;
    }
  }

  /** With both options on, the result is the date placement followed by the
      extension placement inside every folder, and nothing is logged. */
  lemma PhasesBoth(d: Directory, m: ExtensionMap, order: Enumerator)
    requires ValidEnumerator(order) && DateSafe(d) && SubdirsSafe(DateSorted(d), m)
    ensures Phases(d, true, true, m, order) == (SubdirsSorted(DateSorted(d), m), [])
  {
    SortFileDatePlaces(d, order);
    DateSortedNames(d);
    SortFileExtensionsByDate(DateSorted(d), m, order);
  }

  /** With both options on, running the phases a second time changes nothing
      and logs nothing. */
  lemma PhasesBothTwice(d: Directory, m: ExtensionMap, order: Enumerator)
    requires ValidEnumerator(order) && DateSafe(d) && SubdirsSafe(DateSorted(d), m)
    ensures var once := Phases(d, true, true, m, order).0;
      Phases(once, true, true, m, order) == (once, [])
  {
    PhasesBoth(d, m, order);
    var s := DateSorted(d);
    var once := SubdirsSorted(s, m);
    DateSortedNames(d);
    SubdirsSortedKeepsFiles(s, m);
    SortFileDateNoFiles(once, order);
    SubdirsSortedStable(s, m);
    SortFileExtensionsByDate(once, m, order);
  }

  /** With both options on, every file of the directory ends up, unchanged,
      under `year/category/name` when its extension has a category, and under
      `year/name` otherwise. */
  lemma PhasesBothFile(d: Directory, m: ExtensionMap, order: Enumerator, n: string)
    requires ValidEnumerator(order) && DateSafe(d) && SubdirsSafe(DateSorted(d), m)
    requires n in d && d[n].File?
    ensures var r := Phases(d, true, true, m, order).0;
      var y := YearName(d[n].year);
      && y in r && r[y].Dir?
      && n !in r
      && (CategoriesOf(m, n) != [] ==>
            var c := CategoriesOf(m, n)[0];
            c in r[y].entries && r[y].entries[c].Dir? && n !in r[y].entries &&
            n in r[y].entries[c].entries && r[y].entries[c].entries[n] == d[n])
      && (CategoriesOf(m, n) == [] ==> n in r[y].entries && r[y].entries[n] == d[n])
  {
    PhasesBoth(d, m, order);
    var s := DateSorted(d);
    var y := YearName(d[n].year);
    DateSortedNames(d);
    DateSortedFiles(d, n);
    var inY := s[y].entries;
    assert CategorySafe(inY, m);
    assert n in inY && inY[n] == d[n];
    var r := SubdirsSorted(s, m);
    assert r[y] == Dir(CategorySorted(inY, m));
    assert n !in s;
    if CategoriesOf(m, n) != [] {
      assert n in CatFiles(inY, m);
      CategorySortedFiles(inY, m, n);
    } else {
      CategorySortedNames(inY, m);
      assert n in FilesOf(inY) - CatFiles(inY, m);
    }
  }
}
