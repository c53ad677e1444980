/** What the extension phase achieves: create_extensions_folders makes one folder
    per category that some file's extension belongs to, and sort_file_extensions
    puts each such file into the folder of its category, leaving every other
    file where it is. */
module ExtensionSorting {
  import opened FsTree
  import opened Classify
  import opened Sorting
  import opened Placement

  /** The files directly in `d` whose extension some category lists. */
  function CatFiles(d: Directory, m: ExtensionMap): (files: set<string>) {
    set n | n in d && d[n].File? && CategoriesOf(m, n) != []
  }

  /** Each such file's destination: the first category that lists its extension. */
  function CatDest(d: Directory, m: ExtensionMap): (r: map<string, string>)
    ensures r.Keys == CatFiles(d, m)
    ensures forall n :: n in r ==> r[n] == CategoriesOf(m, n)[0]
  {
    map n | n in CatFiles(d, m) :: CategoriesOf(m, n)[0]
  }

  /** Every category that lists the extension of some file of `d` named in `s`. */
  function NeededAmong(d: Directory, m: ExtensionMap, s: set<string>): (cats: set<string>) {
    set n, c | n in s && n in d && d[n].File? && c in CategoriesOf(m, n) :: c
  }

  /** Every category that lists the extension of some file directly in `d`. */
  function Needed(d: Directory, m: ExtensionMap): (cats: set<string>) {
    NeededAmong(d, m, d.Keys)
  }

  lemma NeededHas(d: Directory, m: ExtensionMap, s: set<string>, n: string, c: string)
    requires n in s && n in d && d[n].File? && c in CategoriesOf(m, n)
    ensures c in NeededAmong(d, m, s)
  {
  }

  lemma NeededAmongAdd(d: Directory, m: ExtensionMap, s: set<string>, n: string)
    ensures NeededAmong(d, m, s + {n}) ==
      NeededAmong(d, m, s) + if n in d && d[n].File? then set c | c in CategoriesOf(m, n) else {}
  {
  }

  /** With no file of any category there is no category folder to make. */
  lemma NeededNone(d: Directory, m: ExtensionMap)
    requires forall n :: n in d && d[n].File? ==> CategoriesOf(m, n) == []
    ensures Needed(d, m) == {}
  {
  }

  /** No category folder name is taken by a regular file. */
  ghost predicate CategoryFoldersFree(d: Directory, m: ExtensionMap) {
    forall c :: c in Needed(d, m) ==> !(c in d && d[c].File?)
  }

  /** No name collisions and no extension listed under two categories. */
  ghost predicate CategorySafe(d: Directory, m: ExtensionMap) {
    && CategoryFoldersFree(d, m)
    && (forall n :: n in d && d[n].File? ==> |CategoriesOf(m, n)| <= 1)
    && (forall n :: n in CatFiles(d, m) && CatDest(d, m)[n] in d && d[CatDest(d, m)[n]].Dir? ==>
          n !in d[CatDest(d, m)[n]].entries)
  }

  /** The directory after the extension phase, as a placement. */
  function CategorySorted(d: Directory, m: ExtensionMap): (sorted: Directory) {
    MoveAll(WithFolders(d, Needed(d, m)), CatFiles(d, m), CatDest(d, m))
  }

  /* ---------------- create_extensions_folders ---------------- */

  /** The scan loop collects every category of every listed file. */
  lemma {:induction false} CollectCategoriesAll(d: Directory, m: ExtensionMap, names: seq<string>, found: set<string>)
    ensures CollectCategories(m, Listing(d, names), found) == found + NeededAmong(d, m, set k | k in names)
    decreases |names|
  {
    if names == [] {
      assert NeededAmong(d, m, set k | k in names) == {};
    } else {
      var n := names[0];
      assert Listing(d, names) == [Item(n, n in d && d[n].File?)] + Listing(d, names[1..]);
      assert (set k | k in names) == (set k | k in names[1..]) + {n} by {
        assert names == [n] + names[1..];
      }
      NeededAmongAdd(d, m, (set k | k in names[1..]), n);
      if n in d && d[n].File? {
        CollectCategoriesAll(d, m, names[1..], found + set c | c in CategoriesOf(m, n));
      } else {
        CollectCategoriesAll(d, m, names[1..], found);
      }
    }
  }

  /** create_extensions_folders creates a folder for exactly the categories that
      the files directly in `d` belong to, and touches nothing else. */
  lemma CreateExtensionsFoldersMakes(d: Directory, m: ExtensionMap, order: Enumerator)
    requires ValidEnumerator(order) && CategoryFoldersFree(d, m)
    ensures CreateExtensionsFolders(d, m, order) == (WithFolders(d, Needed(d, m)), [])
  {
    var names := order(d.Keys);
    assert Enumerates(names, d.Keys);
    CollectCategoriesAll(d, m, names, {});
    assert (set k | k in names) == d.Keys;
    var found := CollectCategories(m, Snapshot(d, order), {});
    var cats := order(found);
    assert Enumerates(cats, Needed(d, m));
    MakeFoldersAll(d, {}, cats);
    WithNoFolders(d);
    assert {} + (set k | k in cats) == Needed(d, m);
  }

  /** Adding the category folders changes no file and no category. */
  lemma CategoryFoldersAdded(d: Directory, m: ExtensionMap)
    requires CategoryFoldersFree(d, m)
    ensures var d1 := WithFolders(d, Needed(d, m));
      && FilesOf(d1) == FilesOf(d)
      && (forall n :: n in FilesOf(d) ==> d1[n] == d[n])
      && CatFiles(d1, m) == CatFiles(d, m) && CatDest(d1, m) == CatDest(d, m)
      && Needed(d1, m) == Needed(d, m)
  {
  }

  /** create_extensions_folders is idempotent: a second call changes nothing. */
  lemma CreateExtensionsFoldersIdempotent(d: Directory, m: ExtensionMap, order: Enumerator)
    requires ValidEnumerator(order) && CategoryFoldersFree(d, m)
    ensures var once := CreateExtensionsFolders(d, m, order).0;
      CreateExtensionsFolders(once, m, order) == (once, [])
  {
    CreateExtensionsFoldersMakes(d, m, order);
    var once := WithFolders(d, Needed(d, m));
    CategoryFoldersAdded(d, m);
    assert CategoryFoldersFree(once, m);
    CreateExtensionsFoldersMakes(once, m, order);
    WithFoldersTwice(d, Needed(d, m), Needed(d, m));
    assert Needed(d, m) + Needed(d, m) == Needed(d, m);
  }

  /* ---------------- the move loop ---------------- */

  /** The state the move loop starts from: every file to move has its folder
      ready, and no file belongs to two categories. */
  ghost predicate MoveReady(d1: Directory, m: ExtensionMap) {
    && Ready(d1, CatFiles(d1, m), CatDest(d1, m))
    && forall n :: n in d1 && d1[n].File? ==> |CategoriesOf(m, n)| <= 1
  }

  /** The move loop's view of a directory: the files of `files` go to `dest`,
      every other file has no category, and each destination is ready. */
  ghost predicate Routed(d1: Directory, m: ExtensionMap, files: set<string>, dest: map<string, string>) {
    && Ready(d1, files, dest)
    && forall n :: n in d1 && d1[n].File? ==> CategoriesOf(m, n) == if n in files then [dest[n]] else []
  }

  /** The inner loop for a file of one category: makedirs finds the folder, the
      move places the file. */
  lemma MoveToCategoryOne(d1: Directory, m: ExtensionMap, files: set<string>, dest: map<string, string>,
                          moved: set<string>, n: string)
    requires Routed(d1, m, files, dest) && moved <= files && n in files && n !in moved
    ensures MoveToCategories(MoveAll(d1, moved, dest), n, CategoriesOf(m, n)) ==
      (MoveAll(d1, moved + {n}, dest), None)
  {
    var cur := MoveAll(d1, moved, dest);
    var c := dest[n];
    assert c !in moved && c in cur && cur[c].Dir?;
    assert MakeDirIn(cur, c) == Ok(cur);
    assert Ready(d1, moved + {n}, dest);
    MoveOne(d1, moved, dest, n);
    assert CategoriesOf(m, n)[1..] == [];
  }

  /** One iteration of the move loop on the head of a listing. */
  lemma MoveByCategoryStep(d1: Directory, m: ExtensionMap, files: set<string>, dest: map<string, string>,
                           moved: set<string>, names: seq<string>)
    requires Routed(d1, m, files, dest) && moved <= files
    requires names != [] && names[0] !in moved
    ensures var n := names[0];
      var moved' := if n in files then moved + {n} else moved;
      MoveByCategory(MoveAll(d1, moved, dest), m, Listing(d1, names)) ==
      MoveByCategory(MoveAll(d1, moved', dest), m, Listing(d1, names[1..]))
  {
    var n := names[0];
    var items := Listing(d1, names);
    assert items == [Item(n, n in FilesOf(d1))] + Listing(d1, names[1..]);
    assert items[1..] == Listing(d1, names[1..]);
    if n in files {
      MoveToCategoryOne(d1, m, files, dest, moved, n);
    }
  }

  /** The move loop places every listed file that belongs to a category. */
  lemma {:induction false} MoveByCategoryAll(d1: Directory, m: ExtensionMap, files: set<string>,
                                             dest: map<string, string>, moved: set<string>, names: seq<string>)
    requires Routed(d1, m, files, dest) && moved <= files
    requires forall i :: 0 <= i < |names| ==> names[i] !in moved
    requires forall i, j :: 0 <= i < j < |names| ==> names[i] != names[j]
    ensures MoveByCategory(MoveAll(d1, moved, dest), m, Listing(d1, names)) ==
      (MoveAll(d1, moved + (set n | n in names && n in files), dest), None)
    decreases |names|
  {
    if names == [] {
      assert moved + (set n | n in names && n in files) == moved;
    } else {
      var n := names[0];
      var moved' := if n in files then moved + {n} else moved;
      MoveByCategoryStep(d1, m, files, dest, moved, names);
      MoveByCategoryAll(d1, m, files, dest, moved', names[1..]);
      MovedHead(moved, names, files);
    }
  }

  /** The move loop over a fresh listing places every file that belongs to a category. */
  lemma MoveByCategoryPlaces(d1: Directory, m: ExtensionMap, order: Enumerator)
    requires ValidEnumerator(order) && MoveReady(d1, m)
    ensures MoveByCategory(d1, m, Snapshot(d1, order)) == (MoveAll(d1, CatFiles(d1, m), CatDest(d1, m)), None)
  {
    var files, dest := CatFiles(d1, m), CatDest(d1, m);
    forall n | n in d1 && d1[n].File?
      ensures CategoriesOf(m, n) == if n in files then [dest[n]] else []
    {
      if n in files {
        assert |CategoriesOf(m, n)| == 1;
      }
    }
    MoveNone(d1, dest);
    var names := order(d1.Keys);
    assert Enumerates(names, d1.Keys);
    MoveByCategoryAll(d1, m, files, dest, {}, names);
    ListedAmong(names, d1.Keys, files);
  }

  /** After the folders are made, the move loop is ready. */
  lemma CategoryReady(d: Directory, m: ExtensionMap)
    requires CategorySafe(d, m)
    ensures MoveReady(WithFolders(d, Needed(d, m)), m)
  {
    var d1 := WithFolders(d, Needed(d, m));
    CategoryFoldersAdded(d, m);
    forall n | n in CatFiles(d1, m)
      ensures n in d1 && d1[n].File? && n in CatDest(d1, m)
      ensures CatDest(d1, m)[n] in d1 && d1[CatDest(d1, m)[n]].Dir? && n !in d1[CatDest(d1, m)[n]].entries
    {
      var c := CatDest(d, m)[n];
      NeededHas(d, m, d.Keys, n, c);
    }
    assert forall n :: n in d1 && d1[n].File? ==> n in FilesOf(d);
  }

  /** sort_file_extensions without by_date, when nothing collides, ends in the
      category placement and logs nothing. */
  lemma SortFileExtensionsPlaces(d: Directory, m: ExtensionMap, order: Enumerator)
    requires ValidEnumerator(order) && CategorySafe(d, m)
    ensures SortFileExtensions(d, false, m, order) == (CategorySorted(d, m), [])
  {
    CreateExtensionsFoldersMakes(d, m, order);
    var d1 := WithFolders(d, Needed(d, m));
    CategoryFoldersAdded(d, m);
    CategoryReady(d, m);
    MoveByCategoryPlaces(d1, m, order);
    assert [] + ErrLog(None) == [];
  }

  /* ---------------- where everything ends up ---------------- */

  /** The names after the extension phase: the files of a category are gone from
      the directory, a folder exists for each category found and for no other,
      and a file of no category stays where it was. */
  lemma CategorySortedNames(d: Directory, m: ExtensionMap)
    requires CategorySafe(d, m)
    ensures var r := CategorySorted(d, m);
      && r.Keys == (d.Keys - CatFiles(d, m)) + Needed(d, m)
      && FilesOf(r) == FilesOf(d) - CatFiles(d, m)
      && (forall n :: n in FilesOf(r) ==> r[n] == d[n])
  {
    var r := CategorySorted(d, m);
    var d1 := WithFolders(d, Needed(d, m));
    CategoryFoldersAdded(d, m);
    forall c | c in Needed(d, m) ensures c in r && r[c].Dir? {
      assert c in d1 && d1[c].Dir?;
    }
    forall n | n in FilesOf(r) ensures n in FilesOf(d) - CatFiles(d, m) && r[n] == d[n] {
      assert n in d1 && d1[n].File?;
    }
    forall n | n in FilesOf(d) - CatFiles(d, m) ensures n in FilesOf(r) {
      assert n in d1 && d1[n] == d[n];
    }
  }

  /** Every file of a category ends up, unchanged and under its own name, in the
      folder of the first category that lists its extension. */
  lemma CategorySortedFiles(d: Directory, m: ExtensionMap, n: string)
    requires CategorySafe(d, m) && n in CatFiles(d, m)
    ensures var r := CategorySorted(d, m); var c := CategoriesOf(m, n)[0];
      n !in r && c in r && r[c].Dir? && n in r[c].entries && r[c].entries[n] == d[n]
  {
    var c := CategoriesOf(m, n)[0];
    var d1 := WithFolders(d, Needed(d, m));
    NeededHas(d, m, d.Keys, n, c);
    assert c in d1 && d1[c].Dir? && c !in CatFiles(d, m);
    assert n in Arrivals(d1, CatFiles(d, m), CatDest(d, m), c);
  }

  /** A folder that is not a category folder is untouched, and a category folder
      that already existed keeps what it held. */
  lemma CategorySortedFolders(d: Directory, m: ExtensionMap, k: string)
    requires CategorySafe(d, m) && k in d && d[k].Dir?
    ensures var r := CategorySorted(d, m);
      && k in r && r[k].Dir? && d[k].entries.Keys <= r[k].entries.Keys
      && (forall x :: x in d[k].entries ==> r[k].entries[x] == d[k].entries[x])
      && (k !in Needed(d, m) ==> r[k] == d[k])
  {
    var d1 := WithFolders(d, Needed(d, m));
    assert k in d1 && d1[k] == d[k] && k !in CatFiles(d, m);
    if k !in Needed(d, m) {
      forall n | n in CatFiles(d, m) ensures CatDest(d, m)[n] != k {
        NeededHas(d, m, d.Keys, n, CatDest(d, m)[n]);
      }
      assert Arrivals(d1, CatFiles(d, m), CatDest(d, m), k) == map[];
    }
  }

  /** After one extension pass no file of any category is left directly in the directory. */
  lemma CategorySortedDone(d: Directory, m: ExtensionMap)
    requires CategorySafe(d, m)
    ensures CatFiles(CategorySorted(d, m), m) == {}
  {
    var r := CategorySorted(d, m);
    CategorySortedNames(d, m);
    forall n | n in r && r[n].File? ensures CategoriesOf(m, n) == [] {
      assert n in FilesOf(r);
    }
  }

  /** An extension pass over a directory with no file of any category changes nothing. */
  lemma NoCategoryFilesStable(d: Directory, m: ExtensionMap, order: Enumerator)
    requires ValidEnumerator(order) && CatFiles(d, m) == {}
    ensures SortFileExtensions(d, false, m, order) == (d, [])
  {
    forall n | n in d && d[n].File? ensures CategoriesOf(m, n) == [] {
      assert n !in CatFiles(d, m);
    }
    NeededNone(d, m);
    SortFileExtensionsPlaces(d, m, order);
    WithNoFolders(d);
    MoveNone(d, CatDest(d, m));
  }

  /** The category placement is a fixed point: it is safe to sort again, and
      sorting it again gives it back. */
  lemma CategorySortedStable(d: Directory, m: ExtensionMap)
    requires CategorySafe(d, m)
    ensures CategorySafe(CategorySorted(d, m), m)
    ensures CategorySorted(CategorySorted(d, m), m) == CategorySorted(d, m)
  {
    var r := CategorySorted(d, m);
    CategorySortedDone(d, m);
    forall n | n in r && r[n].File? ensures CategoriesOf(m, n) == [] {
      assert n !in CatFiles(r, m);
    }
    NeededNone(r, m);
    WithNoFolders(r);
    MoveNone(r, CatDest(r, m));
  }

  /** A second extension pass changes nothing: only files of no category are left. */
  lemma SortFileExtensionsTwice(d: Directory, m: ExtensionMap, order: Enumerator)
    requires ValidEnumerator(order) && CategorySafe(d, m)
    ensures var once := SortFileExtensions(d, false, m, order).0;
      SortFileExtensions(once, false, m, order) == (once, [])
  {
    SortFileExtensionsPlaces(d, m, order);
    CategorySortedDone(d, m);
    NoCategoryFilesStable(CategorySorted(d, m), m, order);
  }

  /* ---------------- an extension listed under two categories ---------------- */

  /** The inner loop has no `break`: a file whose extension two categories list
      is moved into the first, and the attempt to move it into the second raises,
      which ends the whole scan loop: shutil.move's destination check if the
      second folder already holds a folder of that name holding the name again,
      NotFound (the file is no longer there) otherwise. */
  lemma TwoCategoriesStop(d: Directory, n: string, cats: seq<string>)
    requires n in d && d[n].File? && |cats| >= 2
    requires cats[0] != n && !(cats[0] in d && d[cats[0]].File?)
    requires cats[0] in d ==> n !in d[cats[0]].entries
    requires !(cats[1] in d && d[cats[1]].File?)
    ensures var (r, err) := MoveToCategories(d, n, cats);
      && err == Some(if Occupied(d, n, cats[1]) then DestinationExists else NotFound)
      && n !in r
      && cats[0] in r && r[cats[0]].Dir? && n in r[cats[0]].entries && r[cats[0]].entries[n] == d[n]
  {
  }

  /** The same at the level of the scan loop: such a file ends the loop with
      an error, and the directory stays as that file's moves left it, so every
      later file in the listing stays where it is. */
  lemma TwoCategoriesEndLoop(d: Directory, m: ExtensionMap, n: string, rest: seq<Item>)
    requires n in d && d[n].File? && |CategoriesOf(m, n)| >= 2
    requires var cats := CategoriesOf(m, n);
      && cats[0] != n && !(cats[0] in d && d[cats[0]].File?)
      && (cats[0] in d ==> n !in d[cats[0]].entries)
      && !(cats[1] in d && d[cats[1]].File?)
    ensures var cats := CategoriesOf(m, n);
      MoveByCategory(d, m, [Item(n, true)] + rest)
      == (MoveToCategories(d, n, cats).0, Some(if Occupied(d, n, cats[1]) then DestinationExists else NotFound))
  {
    TwoCategoriesStop(d, n, CategoriesOf(m, n));
    assert ([Item(n, true)] + rest)[0] == Item(n, true);
  }

  /** A worked case of the destination check: the second category folder
      already holds a folder `x.png` holding `x.png`, so the second move raises
      shutil.move's "already exists" error although the source is gone. */
  lemma TwoCategoriesOccupiedExample()
    ensures var d := map["x.png" := File(1), "Images" := Dir(map[]),
                         "Pics" := Dir(map["x.png" := Dir(map["x.png" := File(1)])])];
      MoveToCategories(d, "x.png", ["Images", "Pics"]).1 == Some(DestinationExists)
  {
    var d := map["x.png" := File(1), "Images" := Dir(map[]),
                 "Pics" := Dir(map["x.png" := Dir(map["x.png" := File(1)])])];
    TwoCategoriesStop(d, "x.png", ["Images", "Pics"]);
    assert Occupied(d, "x.png", "Pics");
  }

  /* ---------------- the date-aware branch ---------------- */

  /** `d` with the folders of `done` sorted by extension. */
  function PartlySorted(d: Directory, m: ExtensionMap, done: set<string>): (r: Directory)
    ensures r.Keys == d.Keys
  {
    map k | k in d :: if k in done && d[k].Dir? then Dir(CategorySorted(d[k].entries, m)) else d[k]
  }

  /** Before the loop no folder is sorted yet. */
  lemma PartlySortedNone(d: Directory, m: ExtensionMap)
    ensures PartlySorted(d, m, {}) == d
  {
  }

  /** `d` with every folder directly in it sorted by extension. */
  function SubdirsSorted(d: Directory, m: ExtensionMap): (sorted: Directory) {
    PartlySorted(d, m, d.Keys)
  }

  /** Every folder directly in `d` can be sorted by extension without collisions. */
  ghost predicate SubdirsSafe(d: Directory, m: ExtensionMap) {
    forall k :: k in d && d[k].Dir? ==> CategorySafe(d[k].entries, m)
  }

  /** One subdirectory: its category folders, then its files, without error. */
  lemma SortSubdirectoryPlaces(d: Directory, k: string, m: ExtensionMap, order: Enumerator)
    requires ValidEnumerator(order) && k in d && d[k].Dir? && CategorySafe(d[k].entries, m)
    ensures SortSubdirectory(d, k, m, order) == (d[k := Dir(CategorySorted(d[k].entries, m))], [], None)
  {
    var s := d[k].entries;
    CreateExtensionsFoldersMakes(s, m, order);
    CategoryFoldersAdded(s, m);
    CategoryReady(s, m);
    MoveByCategoryPlaces(WithFolders(s, Needed(s, m)), m, order);
  }

  lemma PartlySortedAdd(d: Directory, m: ExtensionMap, done: set<string>, k: string)
    requires k in d && k !in done
    ensures var cur := PartlySorted(d, m, done);
      k in cur && cur[k] == d[k] &&
      PartlySorted(d, m, done + {k}) == if d[k].Dir? then cur[k := Dir(CategorySorted(d[k].entries, m))] else cur
  {
  }

  /** One iteration of the loop over the listed subdirectories. */
  lemma SortSubdirectoriesStep(d: Directory, m: ExtensionMap, order: Enumerator, done: set<string>, names: seq<string>)
    requires ValidEnumerator(order) && SubdirsSafe(d, m)
    requires names != [] && names[0] in d && names[0] !in done
    ensures SortSubdirectories(PartlySorted(d, m, done), m, order, Listing(d, names)) ==
      SortSubdirectories(PartlySorted(d, m, done + {names[0]}), m, order, Listing(d, names[1..]))
  {
    var k := names[0];
    var cur := PartlySorted(d, m, done);
    var items := Listing(d, names);
    assert items == [Item(k, d[k].File?)] + Listing(d, names[1..]);
    assert items[1..] == Listing(d, names[1..]);
    PartlySortedAdd(d, m, done, k);
    if d[k].Dir? {
      SortSubdirectoryPlaces(cur, k, m, order);
      SortSubdirectoriesCons(cur, m, order, items);
      var rest := SortSubdirectories(PartlySorted(d, m, done + {k}), m, order, Listing(d, names[1..]));
      assert [] + rest.1 == rest.1;
    } else {
      SortSubdirectoriesSkip(cur, m, order, items);
    }
  }

  /** The loop over the listed subdirectories sorts each of them in turn. */
  lemma {:induction false} SortSubdirectoriesAll(d: Directory, m: ExtensionMap, order: Enumerator,
                                                 done: set<string>, names: seq<string>)
    requires ValidEnumerator(order) && SubdirsSafe(d, m)
    requires forall i :: 0 <= i < |names| ==> names[i] in d && names[i] !in done
    requires forall i, j :: 0 <= i < j < |names| ==> names[i] != names[j]
    ensures SortSubdirectories(PartlySorted(d, m, done), m, order, Listing(d, names)) ==
      (PartlySorted(d, m, done + set k | k in names), [], None)
    decreases |names|
  {
    if names == [] {
      assert done + (set k | k in names) == done;
    } else {
      var k := names[0];
      SortSubdirectoriesStep(d, m, order, done, names);
      SortSubdirectoriesAll(d, m, order, done + {k}, names[1..]);
      AddHead(done, names);
    }
  }

  /** A directory with no file in it: no category folder is made and the move
      loop moves nothing. */
  lemma NoFilesNoCategories(d: Directory, m: ExtensionMap, order: Enumerator)
    requires ValidEnumerator(order) && FilesOf(d) == {}
    ensures CreateExtensionsFolders(d, m, order) == (d, [])
    ensures MoveByCategory(d, m, Snapshot(d, order)) == (d, None)
  {
    assert forall n :: n in d ==> !d[n].File? by {
      forall n | n in d ensures !d[n].File? { assert n !in FilesOf(d); }
    }
    NeededNone(d, m);
    assert CatFiles(d, m) == {};
    CreateExtensionsFoldersMakes(d, m, order);
    WithNoFolders(d);
    MoveByCategoryPlaces(d, m, order);
    MoveNone(d, CatDest(d, m));
  }

  /** sort_file_extensions with by_date, on a directory the date phase has
      emptied of files: every year folder (indeed every folder) is sorted by
      extension, and the final pass over the directory itself moves nothing. */
  lemma SortFileExtensionsByDate(d: Directory, m: ExtensionMap, order: Enumerator)
    requires ValidEnumerator(order) && FilesOf(d) == {} && SubdirsSafe(d, m)
    ensures SortFileExtensions(d, true, m, order) == (SubdirsSorted(d, m), [])
  {
    NoFilesNoCategories(d, m, order);
    SubdirsPass(d, m, order);
    var d2 := SubdirsSorted(d, m);
    SubdirsSortedKeepsFiles(d, m);
    NoFilesNoCategories(d2, m, order);
    assert [] + [] + ErrLog(None) == [];
  }

  /** Empty new folders are safe to sort. */
  lemma SubdirsSafeWithFolders(d: Directory, m: ExtensionMap, s: set<string>)
    requires SubdirsSafe(d, m)
    ensures SubdirsSafe(WithFolders(d, s), m)
  {
  }

  /** Sorting every folder is a fixed point: the result is safe to sort again,
      and sorting it again gives it back. */
  lemma SubdirsSortedStable(d: Directory, m: ExtensionMap)
    requires SubdirsSafe(d, m)
    ensures SubdirsSafe(SubdirsSorted(d, m), m)
    ensures SubdirsSorted(SubdirsSorted(d, m), m) == SubdirsSorted(d, m)
  {
    var r := SubdirsSorted(d, m);
    forall k | k in r && r[k].Dir?
      ensures CategorySafe(r[k].entries, m) && CategorySorted(r[k].entries, m) == r[k].entries
    {
      CategorySortedStable(d[k].entries, m);
    }
  }

  /** The loop over the listed subdirectories, over a fresh listing. */
  lemma SubdirsPass(d: Directory, m: ExtensionMap, order: Enumerator)
    requires ValidEnumerator(order) && SubdirsSafe(d, m)
    ensures SortSubdirectories(d, m, order, Snapshot(d, order)) == (SubdirsSorted(d, m), [], None)
  {
    var names := order(d.Keys);
    assert Enumerates(names, d.Keys);
    PartlySortedNone(d, m);
    SortSubdirectoriesAll(d, m, order, {}, names);
    ListedKeys(names, d.Keys);
  }

  /** Sorting the folders changes no file directly in the directory. */
  lemma SubdirsSortedKeepsFiles(d: Directory, m: ExtensionMap)
    ensures var d2 := SubdirsSorted(d, m);
      && FilesOf(d2) == FilesOf(d)
      && (forall n :: n in d2 && d2[n].File? ==> d2[n] == d[n])
      && CatFiles(d2, m) == CatFiles(d, m) && CatDest(d2, m) == CatDest(d, m)
  {
  }

  /** sort_file_extensions with by_date in general: the category folders of the
      directory are made first, then every folder directly in it, the new
      category folders and any category folder that already existed included,
      is sorted by extension on its own, and last the files directly in the
      directory go to their category folders. The files of the last pass must
      not collide with what the folder pass left in their category folders. */
  lemma SortFileExtensionsByDateAll(d: Directory, m: ExtensionMap, order: Enumerator)
    requires ValidEnumerator(order) && CategorySafe(d, m) && SubdirsSafe(d, m)
    requires Ready(SubdirsSorted(WithFolders(d, Needed(d, m)), m), CatFiles(d, m), CatDest(d, m))
    ensures SortFileExtensions(d, true, m, order) ==
      (MoveAll(SubdirsSorted(WithFolders(d, Needed(d, m)), m), CatFiles(d, m), CatDest(d, m)), [])
  {
    CreateExtensionsFoldersMakes(d, m, order);
    var d1 := WithFolders(d, Needed(d, m));
    CategoryFoldersAdded(d, m);
    SubdirsSafeWithFolders(d, m, Needed(d, m));
    SubdirsPass(d1, m, order);
    var d2 := SubdirsSorted(d1, m);
    SubdirsSortedKeepsFiles(d1, m);
    ByDateReady(d, m);
    MoveByCategoryPlaces(d2, m, order);
    assert [] + [] + ErrLog(None) == [];
  }

  /** The last pass of the by-date branch starts ready to move. */
  lemma ByDateReady(d: Directory, m: ExtensionMap)
    requires CategorySafe(d, m)
    requires Ready(SubdirsSorted(WithFolders(d, Needed(d, m)), m), CatFiles(d, m), CatDest(d, m))
    ensures MoveReady(SubdirsSorted(WithFolders(d, Needed(d, m)), m), m)
  {
    var d1 := WithFolders(d, Needed(d, m));
    CategoryFoldersAdded(d, m);
    SubdirsSortedKeepsFiles(d1, m);
  }
}
