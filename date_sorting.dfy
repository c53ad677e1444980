/** What the date phase achieves: create_date_folder makes exactly one folder
    per distinct creation year, and sort_file_date leaves no regular file in
    the directory, each under the folder of its year with its own name. */
module DateSorting {
  import opened FsTree
  import opened Classify
  import opened Sorting
  import opened Placement

  /** The folder names for the creation years of the files of `d`. */
  function FileYears(d: Directory): (years: set<string>) {
    set n | n in d && d[n].File? :: YearName(d[n].year)
  }

  /** Each file's destination: the folder of its creation year. */
  function DateDest(d: Directory): (dest: map<string, string>) {
    map n | n in d && d[n].File? :: YearName(d[n].year)
  }

  /** No year folder name is taken by a regular file. */
  ghost predicate YearFoldersFree(d: Directory) {
    forall n :: n in d && d[n].File? ==> !(YearName(d[n].year) in d && d[YearName(d[n].year)].File?)
  }

  /** No name collisions: year folders are free, and a year folder that already
      exists does not hold a name that a file would be moved to. */
  ghost predicate DateSafe(d: Directory) {
    && YearFoldersFree(d)
    && forall n :: n in d && d[n].File? && YearName(d[n].year) in d ==> n !in d[YearName(d[n].year)].entries
  }

  /** The directory after the date phase, as a placement. */
  function DateSorted(d: Directory): (sorted: Directory) {
    MoveAll(WithFolders(d, FileYears(d)), FilesOf(d), DateDest(d))
  }

  /** The creation years of the files of `d` named in `names`, as folder names. */
  function ListedYears(d: Directory, names: seq<string>): (years: set<string>) {
    set n | n in names && n in d && d[n].File? :: YearName(d[n].year)
  }

  /** The times list after the head of a listing. */
  function TimeAfter(d: Directory, n: string, time: seq<nat>): (time': seq<nat>) {
    if n in d && d[n].File? then time + [d[n].year] else time
  }

  /** One iteration of the getctime loop: a listed file adds its year. */
  lemma CollectYearsStep(d: Directory, names: seq<string>, time: seq<nat>)
    requires names != []
    ensures CollectYears(d, Listing(d, names), time) ==
      CollectYears(d, Listing(d, names[1..]), TimeAfter(d, names[0], time))
  {
    var n := names[0];
    assert Listing(d, names) == [Item(n, n in d && d[n].File?)] + Listing(d, names[1..]);
  }

  /** The years seen so far, split at the head of a listing. */
  lemma YearsHead(d: Directory, names: seq<string>, time: seq<nat>)
    requires names != []
    ensures YearNames(TimeAfter(d, names[0], time)) + ListedYears(d, names[1..]) ==
      YearNames(time) + ListedYears(d, names)
  {
    var n := names[0];
    assert names == [n] + names[1..];
    if n in d && d[n].File? {
      assert YearNames(time + [d[n].year]) == YearNames(time) + {YearName(d[n].year)};
    }
  }

  /** The loop over the listing collects the year of every listed file, and
      getctime never fails on a listed file. */
  lemma {:induction false} CollectYearsAll(d: Directory, names: seq<string>, time: seq<nat>)
    ensures CollectYears(d, Listing(d, names), time).Ok?
    ensures YearNames(CollectYears(d, Listing(d, names), time).value) ==
      YearNames(time) + ListedYears(d, names)
    decreases |names|
  {
    if names != [] {
      CollectYearsStep(d, names, time);
      CollectYearsAll(d, names[1..], TimeAfter(d, names[0], time));
      YearsHead(d, names, time);
    }
  }

  /** create_date_folder creates a folder for exactly the distinct creation
      years of the files directly in `d`, and touches nothing else. */
  lemma CreateDateFolderMakesYears(d: Directory, order: Enumerator)
    requires ValidEnumerator(order) && YearFoldersFree(d)
    ensures CreateDateFolder(d, order) == (WithFolders(d, FileYears(d)), [])
  {
    var names := order(d.Keys);
    assert Enumerates(names, d.Keys);
    CollectYearsAll(d, names, []);
    assert YearNames([]) == {};
    assert ListedYears(d, names) == FileYears(d);
    var time := CollectYears(d, Snapshot(d, order), []).value;
    var years := order(YearNames(time));
    assert Enumerates(years, FileYears(d));
    MakeFoldersAll(d, {}, years);
    WithNoFolders(d);
    ListedKeys(years, FileYears(d));
  }

  lemma YearFoldersAdded(d: Directory)
    requires YearFoldersFree(d)
    ensures var d1 := WithFolders(d, FileYears(d));
      FilesOf(d1) == FilesOf(d) && FileYears(d1) == FileYears(d) && DateDest(d1) == DateDest(d) &&
      YearFoldersFree(d1)
  {
  }

  /** create_date_folder is idempotent: a second call changes nothing. */
  lemma CreateDateFolderIdempotent(d: Directory, order: Enumerator)
    requires ValidEnumerator(order) && YearFoldersFree(d)
    ensures var once := CreateDateFolder(d, order).0;
      CreateDateFolder(once, order) == (once, [])
  {
    CreateDateFolderMakesYears(d, order);
    var once := WithFolders(d, FileYears(d));
    YearFoldersAdded(d);
    CreateDateFolderMakesYears(once, order);
    WithFoldersTwice(d, FileYears(d), FileYears(d));
    assert FileYears(d) + FileYears(d) == FileYears(d);
  }

  /** One iteration of the move loop of sort_file_date: a listed file goes to
      the folder of its year, anything else is skipped. */
  lemma MoveByYearStep(d1: Directory, moved: set<string>, names: seq<string>)
    requires Ready(d1, FilesOf(d1), DateDest(d1))
    requires moved <= FilesOf(d1) && names != [] && names[0] !in moved
    ensures var n := names[0];
      var moved' := if n in FilesOf(d1) then moved + {n} else moved;
      MoveByYear(MoveAll(d1, moved, DateDest(d1)), Listing(d1, names)) ==
      MoveByYear(MoveAll(d1, moved', DateDest(d1)), Listing(d1, names[1..]))
  {
    var n := names[0];
    var items := Listing(d1, names);
    assert items == [Item(n, n in FilesOf(d1))] + Listing(d1, names[1..]);
    assert items[1..] == Listing(d1, names[1..]);
    if n in FilesOf(d1) {
      var dest := DateDest(d1);
      var cur := MoveAll(d1, moved, dest);
      assert YearOf(cur, n) == Ok(d1[n].year) by {
        assert n in cur && cur[n] == d1[n];
      }
      MoveOne(d1, moved, dest, n);
    }
  }

  /** The move loop of sort_file_date places every listed file. */
  lemma {:induction false} MoveByYearAll(d1: Directory, moved: set<string>, names: seq<string>)
    requires Ready(d1, FilesOf(d1), DateDest(d1))
    requires moved <= FilesOf(d1)
    requires forall i :: 0 <= i < |names| ==> names[i] !in moved
    requires forall i, j :: 0 <= i < j < |names| ==> names[i] != names[j]
    ensures MoveByYear(MoveAll(d1, moved, DateDest(d1)), Listing(d1, names)) ==
      (MoveAll(d1, moved + (set n | n in names && n in FilesOf(d1)), DateDest(d1)), None)
    decreases |names|
  {
    if names == [] {
      assert moved + (set n | n in names && n in FilesOf(d1)) == moved;
    } else {
      var n := names[0];
      var moved' := if n in FilesOf(d1) then moved + {n} else moved;
      MoveByYearStep(d1, moved, names);
      MoveByYearAll(d1, moved', names[1..]);
      MovedHead(moved, names, FilesOf(d1));
    }
  }

  /** The move loop over a fresh listing places every file of the directory. */
  lemma MoveByYearPlaces(d1: Directory, order: Enumerator)
    requires ValidEnumerator(order) && Ready(d1, FilesOf(d1), DateDest(d1))
    ensures MoveByYear(d1, Snapshot(d1, order)) == (MoveAll(d1, FilesOf(d1), DateDest(d1)), None)
  {
    MoveNone(d1, DateDest(d1));
    var names := order(d1.Keys);
    assert Enumerates(names, d1.Keys);
    MoveByYearAll(d1, {}, names);
    ListedAmong(names, d1.Keys, FilesOf(d1));
  }

  /** sort_file_date, without collisions, ends in the date placement and logs nothing. */
  lemma SortFileDatePlaces(d: Directory, order: Enumerator)
    requires ValidEnumerator(order) && DateSafe(d)
    ensures SortFileDate(d, order) == (DateSorted(d), [])
  {
    CreateDateFolderMakesYears(d, order);
    var d1 := WithFolders(d, FileYears(d));
    YearFoldersAdded(d);
    assert Ready(d1, FilesOf(d1), DateDest(d1));
    MoveByYearPlaces(d1, order);
    assert [] + ErrLog(None) == [];
  }

  /** After the date phase no regular file is left directly in the directory,
      and its names are the old folders plus the year folders. */
  lemma DateSortedNames(d: Directory)
    requires DateSafe(d)
    ensures FilesOf(DateSorted(d)) == {}
    ensures DateSorted(d).Keys == (d.Keys - FilesOf(d)) + FileYears(d)
  {
  }

  /** Every file of `d` ends up, unchanged and under its own name, in the
      folder named after its creation year. */
  lemma DateSortedFiles(d: Directory, n: string)
    requires DateSafe(d) && n in d && d[n].File?
    ensures var r := DateSorted(d); var y := YearName(d[n].year);
      y in r && r[y].Dir? && n in r[y].entries && r[y].entries[n] == d[n]
  {
  }

  /** A folder that is not a year folder is untouched, and a year folder that
      already existed keeps what it held. */
  lemma DateSortedFolders(d: Directory, k: string)
    requires DateSafe(d) && k in d && d[k].Dir?
    ensures var r := DateSorted(d);
      && k in r && r[k].Dir? && d[k].entries.Keys <= r[k].entries.Keys
      && (forall x :: x in d[k].entries ==> r[k].entries[x] == d[k].entries[x])
      && (k !in FileYears(d) ==> r[k] == d[k])
  {
  }

  /** Sorting an already sorted directory changes nothing: with no regular file
      directly in it, sort_file_date creates no folder and moves nothing. */
  lemma SortFileDateNoFiles(d: Directory, order: Enumerator)
    requires ValidEnumerator(order) && FilesOf(d) == {}
    ensures SortFileDate(d, order) == (d, [])
  {
    forall n | n in d ensures !d[n].File? {
      assert n !in FilesOf(d);
    }
    SortFileDatePlaces(d, order);
    assert FileYears(d) == {};
    WithNoFolders(d);
    MoveNone(d, DateDest(d));
  }

  /** Running the date phase twice is running it once. */
  lemma SortFileDateTwice(d: Directory, order: Enumerator)
    requires ValidEnumerator(order) && DateSafe(d)
    ensures SortFileDate(SortFileDate(d, order).0, order) == (SortFileDate(d, order).0, [])
  {
    SortFileDatePlaces(d, order);
    DateSortedNames(d);
    SortFileDateNoFiles(DateSorted(d), order);
  }

  /** The makedirs loop fails when a listed name is held by a file: makedirs
      never turns a file into a folder, so that name is still a file when the
      loop reaches it, if an earlier failure has not ended the loop already. */
  lemma {:induction false} MakeFoldersBlocked(d: Directory, names: seq<string>, i: int)
    requires 0 <= i < |names| && names[i] in d && d[names[i]].File?
    ensures MakeFolders(d, names).1.Some?
    decreases |names|
  {
    if i > 0 && MakeDirIn(d, names[0]).Ok? {
      var d' := MakeDirIn(d, names[0]).value;
      assert names[1..][i - 1] == names[i];
      assert d'[names[i]] == d[names[i]];
      MakeFoldersBlocked(d', names[1..], i - 1);
    }
  }

  /** A file whose year folder name is already held by a file (a file called
      "2023" next to a file created in 2023): the makedirs raises, the error is
      caught and logged, and the date phase does not finish cleanly. */
  lemma YearNameTakenLogs(d: Directory, order: Enumerator, n: string)
    requires ValidEnumerator(order) && n in d && d[n].File?
    requires YearName(d[n].year) in d && d[YearName(d[n].year)].File?
    ensures CreateDateFolder(d, order).1 != []
    ensures SortFileDate(d, order).1 != []
  {
    var names := order(d.Keys);
    assert Enumerates(names, d.Keys);
    CollectYearsAll(d, names, []);
    var time := CollectYears(d, Snapshot(d, order), []).value;
    var y := YearName(d[n].year);
    assert y in YearNames(time);
    var years := order(YearNames(time));
    assert Enumerates(years, YearNames(time));
    var i :| 0 <= i < |years| && years[i] == y;
    MakeFoldersBlocked(d, years, i);
  }
}
