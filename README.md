# FileOrganizer sorter, modelled and verified in Dafny

This project models `FileSorter` from `file_organizer/file_sorter.py`. For every
configured directory the sorter does two things:

- it moves each regular file into a folder named after the file's creation
  year (`sort_file_date`);
- it moves each file whose extension is listed under a category into a folder
  named after that category (`sort_file_extensions`). When both options are on,
  this happens inside every year folder.

Folders are created only when they are needed (`create_date_folder` and
`create_extensions_folders`).

The file system is an in-memory tree. A `Directory` is a finite map from names
to entries, and an entry is either `File(year)` or `Dir(directory)`.
`os.makedirs(exist_ok=True)` and `shutil.move` of one child name of a folder
are total functions on this tree (`FsTree.MakeDirIn` and `FsTree.MoveIn`). They
return an `OsError` in the cases where Python raises. Category names are taken
to be single path components (see "Left out").

The project has three layers.

1. **The class, imperative.** `Os.FileSystem` is the mutable tree. It offers
   `ScanDir`, `CreationYear`, `MakeDirs` and `Move`. `Organizer.FileSorter` has
   one method per Python method, with the same loops and the same `try`
   structure, and a method of its own for some inner loops (`MakeFoldersIn`,
   `CategoriesOfFile`, `MoveToCategoriesOf`, `MoveFilesByCategory`,
   `SortSubdirectory`, `SortSubdirectories`). Every method's postcondition says that the new tree and the log
   of caught errors are exactly what the matching function of module `Sorting`
   computes from the old tree.
2. **The specification functions.** Module `Sorting` follows the control flow
   of each Python method over one directory, as functions:
   - `CollectYears`, `MakeFolders`, `CreateDateFolder`, `MoveByYear` and
     `SortFileDate` for the date phase;
   - `CollectCategories`, `CreateExtensionsFolders`, `MoveToCategories`,
     `MoveByCategory`, `SortSubdirectory`, `SortSubdirectories` and
     `SortFileExtensions` for the extension phase;
   - `SortDirectory` and `SortFiles` for the run;
   - the `...At` forms lift a phase to a path of the whole tree.

   Each one returns the new directory and the errors that the method's
   `except` clauses would catch and log, in logging order.
3. **What the phases achieve.** These lemmas do not mention any loop.
   - Module `Placement` describes the outcome of a classify-and-place pass:
     `WithFolders` says which folders are added, and `MoveAll` says where each
     moved file lands.
   - `DateSorting`, `ExtensionSorting` and `RunSorting` prove that, when no
     names collide, the phases reach exactly these outcomes and log nothing.
   - They also prove what these outcomes mean: where every file ends up, which
     folders exist, and what is untouched. They prove idempotence, and what
     happens on a collision or when one extension has two categories.

## Modelling decisions

- **Listings.** `os.scandir` is a snapshot taken when the loop starts. Each
  entry's `is_file()` is fixed at that moment; a later move does not change
  it.
- **Order.** The order in which the platform lists names, and the order of
  iterating `list(set(time))` and `existing_extensions`, are one function
  `Enumerator` from a set of names to a sequence. It is a field of the file
  system. Every property holds for any enumerator that lists each name exactly
  once (`FsTree.ValidEnumerator`). Being one function, it lists the same set
  of names in the same order every time; a real `os.scandir` may list the same
  names in a different order on a later scan. No proved property depends on
  that order.
- **Configuration.** The configuration is a sequence of
  `Sorting.DirectoryConfig`, in the order of the JSON object:
  - a missing `"path"` is `None`;
  - a missing `"sorting"`, `"by_date"` or `"by_extension"` is `false`.

  The extension map is a sequence of `(category, extensions)` pairs, in
  insertion order. The category loop takes matches in that order.
- **Extension.** The extension is `os.path.splitext(name)[1]` with POSIX rules.
  It is the suffix from the last dot, but only when some character other than
  a dot comes before that dot. So `.bashrc` has no extension, and
  `archive.tar.gz` has `.gz`. A category matches by exact, case-sensitive
  membership in its list.
- **The model follows the code as written:**
  - *Two categories for one extension.* The category loop has no `break`. A
    file whose extension two categories list is moved into the first one. Then
    the second `shutil.move` raises, which ends that scan loop, and every
    later file in the listing stays where it is
    (`ExtensionSorting.TwoCategoriesStop`,
    `ExtensionSorting.TwoCategoriesEndLoop`). The first match does not simply
    win. The error is usually `FileNotFoundError`, because the file is gone.
    But shutil.move checks its destination before its source. So when the
    second category folder already holds a folder of the file's name that
    holds that name again, it raises its "already exists" `shutil.Error`
    instead (`FsTree.Occupied`,
    `ExtensionSorting.TwoCategoriesOccupiedExample`).
  - *Configuration order.* Configured directories are processed in
    configuration order. The order matters when the directories nest.
  - *By-date branch.* With `by_date`, the extension phase sorts every
    immediate subdirectory, not only year folders. Category folders that
    already existed at the top level are sorted too, so a file `Images/x.png`
    found there ends up at `Images/Images/x.png`. The files directly in the
    directory then get a final pass
    (`ExtensionSorting.SortFileExtensionsByDateAll`).

## Model

| member | source | states |
|---|---|---|
| FsTree.MakeDirIn | file_organizer/file_sorter.py:117 | os.makedirs(exist_ok=True) of a child name fails exactly when a file holds the name (FileExists). Otherwise the only change is that the name now holds a folder: an existing folder is kept as it is, and a missing one is added empty |
| FsTree.Occupied | file_organizer/file_sorter.py:73 | shutil.move's first check: the destination `target/name` is a folder that already holds `name` |
| FsTree.MoveIn | file_organizer/file_sorter.py:94 | shutil.move of `name` into folder `target`: a destination folder that already holds the name raises DestinationExists before the source is looked at; otherwise a missing source raises NotFound. On success the target was a folder other than the source, the source name is gone, and every entry except the target is unchanged. When the target does not yet hold the name, the file is inserted into it unchanged |
| FsTree.Child | file_organizer/file_sorter.py:53 | joining a name to a path opens a folder exactly when that name holds a folder; otherwise it fails with NotFound or NotADirectory |
| Classify.LastIndexOf | file_organizer/file_sorter.py:58 | the index is -1 or holds the character, and no later index holds it: the last occurrence (str.rfind, used by splitext) |
| Classify.Extension | file_organizer/file_sorter.py:68 | os.path.splitext(name)[1]: never longer than the name; its full shape is stated by Classify.ExtensionShape |
| Classify.Matches | file_organizer/file_sorter.py:136-137 | the categories whose list holds the extension, in map order, at most one per map entry; Classify.MatchesMembers and Classify.MatchesFirst say which |
| Classify.ExtensionShape | file_organizer/file_sorter.py:58 | the looked-up extension is a suffix of the name, either empty or one dot followed by no dot and no separator. A plain name has one exactly when a dot follows a character other than a dot |
| Classify.YearNameExamples | file_organizer/file_sorter.py:117 | str() of a year is its decimal digits: 7 gives `7`, 2022 gives `2022` |
| Classify.ExtensionExamples | file_organizer/file_sorter.py:68 | splitext examples: `x.png` gives `.png`, `archive.tar.gz` gives `.gz`, and `.bashrc` and `README` give the empty extension |
| Classify.MatchesMembers | file_organizer/file_sorter.py:59-60 | a category is acted on exactly when its list holds the extension (exact membership) |
| Classify.MatchesFirst | file_organizer/file_sorter.py:69-70 | the first category acted on is the first entry of the map, in insertion order, whose list holds the extension |
| Classify.YearName | file_organizer/file_sorter.py:117 | str(year) is a non-empty string of decimal digits, one digit long exactly for years below 10 |
| Classify.YearNameInjective | file_organizer/file_sorter.py:114-117 | distinct years give distinct folder names, so one folder per distinct year |
| Os.FileSystem.ScanDir | file_organizer/file_sorter.py:109 | os.scandir of a path: an error when the path is not a folder, otherwise a snapshot listing of it in platform order |
| Os.FileSystem.CreationYear | file_organizer/file_sorter.py:111-112 | the creation year of a listed file; an error when the file is gone |
| Os.FileSystem.MakeDirs | file_organizer/file_sorter.py:142 | os.makedirs at a path changes only the folder at that path, as MakeDirIn says, and leaves the tree unchanged on error |
| Os.FileSystem.Move | file_organizer/file_sorter.py:73 | shutil.move within the folder at a path changes only that folder, as MoveIn says, and leaves the tree unchanged on error |
| Sorting.YearOf | file_organizer/file_sorter.py:92-93 | the creation year of a listed regular file, which is its own year; the sorter asks about no other entry, and any other name gives NotFound (the model does not give folders a creation time) |
| Sorting.CollectYears | file_organizer/file_sorter.py:109-112 | the scan loop of create_date_folder only appends to `time`, at most one year per listed entry; the only error it raises is NotFound |
| Sorting.MakeFolders | file_organizer/file_sorter.py:116-117 | the makedirs loop never changes or removes an existing entry; it can fail only with FileExists, and when it does not fail every listed name is a folder |
| Sorting.CreateDateFolder | file_organizer/file_sorter.py:104-125 | create_date_folder keeps every existing entry unchanged and logs at most one error |
| Sorting.MoveByYear | file_organizer/file_sorter.py:90-95 | the move loop of sort_file_date never adds a name to the directory, and when it raises nothing no listed file is left in it |
| Sorting.SortFileDate | file_organizer/file_sorter.py:84-102 | sort_file_date logs at most two errors: one caught in create_date_folder and one in its own loop |
| Sorting.CategoriesOf | file_organizer/file_sorter.py:135-137 | the categories of a file name's extension, at most one per map entry |
| Sorting.CollectCategories | file_organizer/file_sorter.py:133-138 | the scan loop of create_extensions_folders only adds to `existing_extensions` |
| Sorting.CreateExtensionsFolders | file_organizer/file_sorter.py:127-150 | create_extensions_folders keeps every existing entry unchanged and logs at most one error |
| Sorting.MoveToCategories | file_organizer/file_sorter.py:69-74 | the inner category loop removes no entry other than the file itself, and a file with at least one category that raises nothing has left the directory |
| Sorting.MoveByCategory | file_organizer/file_sorter.py:66-74 | a scan loop of sort_file_extensions removes no entry that the listing does not name |
| Sorting.SortSubdirectory | file_organizer/file_sorter.py:52-64 | one pass of the by-date loop changes only the listed folder: every other entry, and every file, is unchanged, and no name is added or removed |
| Sorting.SortSubdirectories | file_organizer/file_sorter.py:51-64 | the by-date loop adds and removes no name of the directory and changes no file directly in it |
| Sorting.SortFileExtensions | file_organizer/file_sorter.py:43-82 | without by_date, sort_file_extensions logs at most two errors: one caught in create_extensions_folders and one in its own loop |
| Sorting.CreateDateFolderAt | file_organizer/file_sorter.py:104-125 | at a missing path the tree is unchanged and the scan error is logged once; otherwise the folder at the path is what create_date_folder makes of it |
| Sorting.SortFileDateAt | file_organizer/file_sorter.py:84-102 | at a missing path the tree is unchanged and the scan error is logged twice (in create_date_folder, then in sort_file_date); otherwise the folder at the path is what sort_file_date makes of it |
| Sorting.CreateExtensionsFoldersAt | file_organizer/file_sorter.py:127-150 | at a missing path the tree is unchanged and the scan error is logged once; otherwise the folder at the path is what create_extensions_folders makes of it |
| Sorting.MoveByCategoryAt | file_organizer/file_sorter.py:66-74 | at a missing path the tree is unchanged and the scan raises; otherwise the folder at the path is what the scan loop makes of it |
| Sorting.SortFileExtensionsAt | file_organizer/file_sorter.py:43-82 | at a missing path the tree is unchanged and the scan error is logged twice; otherwise the folder at the path is what sort_file_extensions makes of it |
| Sorting.SortDirectory | file_organizer/file_sorter.py:28-34 | with neither option set, a configured directory is left unchanged and nothing is logged |
| Organizer.FileSorter.constructor | file_organizer/file_sorter.py:16-21 | the sorter holds the parsed configuration and extension map it is given |
| Organizer.FileSorter.MakeFoldersIn | file_organizer/file_sorter.py:116-117 | the makedirs loop creates the listed folders in turn and stops at the first failure, as Sorting.MakeFolders says |
| Organizer.FileSorter.CreateDateFolder | file_organizer/file_sorter.py:104-125 | the new tree and the logged errors are those of Sorting.CreateDateFolderAt |
| Organizer.FileSorter.SortFileDate | file_organizer/file_sorter.py:84-102 | the new tree and the logged errors are those of Sorting.SortFileDateAt |
| Organizer.FileSorter.CategoriesOfFile | file_organizer/file_sorter.py:135-138 | the categories a file adds to existing_extensions are exactly those whose list holds its extension |
| Organizer.FileSorter.CreateExtensionsFolders | file_organizer/file_sorter.py:127-150 | the new tree and the logged errors are those of Sorting.CreateExtensionsFoldersAt |
| Organizer.FileSorter.MoveToCategoriesOf | file_organizer/file_sorter.py:69-74 | the inner category loop for one file (makedirs then move, for every match, no break) is Sorting.MoveToCategories |
| Organizer.FileSorter.MoveFilesByCategory | file_organizer/file_sorter.py:66-74 | the final scan loop is Sorting.MoveByCategoryAt, and the first exception ends it |
| Organizer.FileSorter.SortSubdirectory | file_organizer/file_sorter.py:52-64 | one subdirectory in the by-date branch is Sorting.SortSubdirectory: its category folders, then its files |
| Organizer.FileSorter.SortSubdirectories | file_organizer/file_sorter.py:51-64 | the by-date loop over a listing of the folder sorts each listed folder in turn, skips files, and stops at the first error raised, as Sorting.SortSubdirectories |
| Organizer.FileSorter.SortFileExtensions | file_organizer/file_sorter.py:43-82 | the new tree and the logged errors are those of Sorting.SortFileExtensionsAt |
| Organizer.FileSorter.SortDirectory | file_organizer/file_sorter.py:28-34 | one configured directory: the date phase if by_date, then the extension phase with the by_date flag, as Sorting.SortDirectory says |
| Sorting.SortFiles | file_organizer/file_sorter.py:23-41 | the configured directories in configuration order, each on the tree the previous one left, with the logs concatenated; its properties are stated by RunSorting.SortFilesAppend and RunSorting.SortFilesNothingEnabled |
| Organizer.FileSorter.SortFiles | file_organizer/file_sorter.py:23-41 | the configured directories in order, as Sorting.SortFiles says |
| Placement.MoveOne | file_organizer/file_sorter.py:94 | moving one ready file into its destination folder extends the placement by that file |
| Placement.MakeFoldersAll | file_organizer/file_sorter.py:116-117 | when no file is in the way, the makedirs loop adds exactly the listed folders and fails nowhere |
| DateSorting.CollectYearsAll | file_organizer/file_sorter.py:109-112 | the first scan never fails, and it collects the year of every listed file and of nothing else |
| DateSorting.CreateDateFolderMakesYears | file_organizer/file_sorter.py:107-117 | create_date_folder adds an empty folder for exactly the distinct creation years of the files directly in the directory, leaves every existing entry unchanged and logs nothing |
| DateSorting.CreateDateFolderIdempotent | file_organizer/file_sorter.py:107-117 | calling create_date_folder twice is calling it once |
| DateSorting.MoveByYearAll | file_organizer/file_sorter.py:90-94 | the move loop moves every listed file into its year folder without error |
| DateSorting.SortFileDatePlaces | file_organizer/file_sorter.py:84-102 | without name collisions, sort_file_date ends in the date placement and logs nothing |
| DateSorting.DateSortedNames | file_organizer/file_sorter.py:88-94 | afterwards no regular file is left directly in the directory, and its names are the old folders plus the year folders |
| DateSorting.DateSortedFiles | file_organizer/file_sorter.py:90-94 | every former file sits at `str(year)/name`, unchanged |
| DateSorting.DateSortedFolders | file_organizer/file_sorter.py:88-94 | a folder that is not a year folder is untouched, and an existing year folder keeps its contents |
| DateSorting.SortFileDateNoFiles | file_organizer/file_sorter.py:88-94 | on a directory with no file directly in it, sort_file_date changes nothing and logs nothing |
| DateSorting.SortFileDateTwice | file_organizer/file_sorter.py:84-102 | running the date phase a second time changes nothing |
| DateSorting.MakeFoldersBlocked | file_organizer/file_sorter.py:116-117 | the makedirs loop fails when a listed name is held by a file |
| DateSorting.YearNameTakenLogs | file_organizer/file_sorter.py:116-125 | when a file holds the name of a needed year folder, the error is caught and logged, by create_date_folder and so by sort_file_date |
| ExtensionSorting.CollectCategoriesAll | file_organizer/file_sorter.py:133-138 | the scan collects every category of every listed file and nothing else |
| ExtensionSorting.CreateExtensionsFoldersMakes | file_organizer/file_sorter.py:131-142 | create_extensions_folders adds an empty folder for exactly the categories matched by files directly in the directory (no folder for an unmatched extension), leaves every existing entry unchanged and logs nothing |
| ExtensionSorting.CreateExtensionsFoldersIdempotent | file_organizer/file_sorter.py:131-142 | calling create_extensions_folders twice is calling it once |
| ExtensionSorting.MoveToCategoryOne | file_organizer/file_sorter.py:69-73 | for a file of one category, makedirs finds the folder and the move places the file there |
| ExtensionSorting.MoveByCategoryAll | file_organizer/file_sorter.py:66-74 | the scan loop moves every listed file of a category to its folder, leaves the others alone and raises nothing |
| ExtensionSorting.MoveByCategoryPlaces | file_organizer/file_sorter.py:66-74 | over a fresh listing, the scan loop reaches the category placement |
| ExtensionSorting.SortFileExtensionsPlaces | file_organizer/file_sorter.py:43-82 | without by_date and without collisions, sort_file_extensions ends in the category placement and logs nothing |
| ExtensionSorting.CategorySortedNames | file_organizer/file_sorter.py:66-74 | afterwards the names are the old ones, minus the files of a category, plus the category folders. Files of no category stay where they were, unchanged |
| ExtensionSorting.CategorySortedFiles | file_organizer/file_sorter.py:69-73 | a file of a category sits at `category/name`, unchanged, in its first matching category, and is gone from the directory |
| ExtensionSorting.CategorySortedFolders | file_organizer/file_sorter.py:66-74 | subdirectories are not entered: a folder that is not a category folder is untouched, and an existing category folder keeps its contents |
| ExtensionSorting.CategorySortedDone | file_organizer/file_sorter.py:66-74 | after one extension pass no file whose extension has a category is left directly in the directory |
| ExtensionSorting.NoCategoryFilesStable | file_organizer/file_sorter.py:43-74 | an extension pass over a directory with no file of any category makes no folder, moves nothing and logs nothing |
| ExtensionSorting.CategorySortedStable | file_organizer/file_sorter.py:66-74 | the category placement is safe to sort again, and sorting it again gives it back |
| ExtensionSorting.SortFileExtensionsTwice | file_organizer/file_sorter.py:43-82 | a second extension pass changes nothing |
| ExtensionSorting.TwoCategoriesStop | file_organizer/file_sorter.py:59-63 | with two matching categories, the file goes into the first, and the second move raises DestinationExists if the second folder already holds a folder of that name that holds the name, NotFound otherwise |
| ExtensionSorting.TwoCategoriesOccupiedExample | file_organizer/file_sorter.py:69-74 | a worked case: when the second category folder holds `x.png/x.png`, the second move raises DestinationExists although the file is gone |
| ExtensionSorting.TwoCategoriesEndLoop | file_organizer/file_sorter.py:66-74 | such a file ends the scan loop with the second move's error (DestinationExists or NotFound, as in TwoCategoriesStop), and the directory is exactly as that file's moves left it: no later file in the listing is touched |
| ExtensionSorting.SortSubdirectoryPlaces | file_organizer/file_sorter.py:52-64 | one subdirectory in the by-date branch ends sorted by extension, with nothing logged |
| ExtensionSorting.SortSubdirectoriesAll | file_organizer/file_sorter.py:51-64 | the by-date loop sorts every listed folder and skips files |
| ExtensionSorting.NoFilesNoCategories | file_organizer/file_sorter.py:131-142 | a directory with no file directly in it gets no category folder, and its move loop moves nothing |
| ExtensionSorting.SortFileExtensionsByDate | file_organizer/file_sorter.py:47-74 | on a directory with no file directly in it, the by-date extension phase sorts every folder in it and logs nothing |
| ExtensionSorting.SubdirsSortedStable | file_organizer/file_sorter.py:51-64 | once every folder is sorted by extension, the folders are safe to sort again and sorting them again changes nothing |
| ExtensionSorting.SortFileExtensionsByDateAll | file_organizer/file_sorter.py:47-74 | in general, the by-date extension phase makes the category folders, sorts every folder in it (including category folders), then places the files directly in it |
| RunSorting.SortFilesNothingEnabled | file_organizer/file_sorter.py:23-41 | a configuration in which no directory enables an option leaves the tree unchanged and logs nothing |
| RunSorting.SortFilesAppend | file_organizer/file_sorter.py:25-34 | configured directories are handled strictly one after another: sorting a list is sorting its first part, then its second |
| RunSorting.SortDirectoryMissing | file_organizer/file_sorter.py:28-34 | a configured directory that does not exist, or has no path, leaves the tree unchanged. Each enabled phase logs the error twice |
| RunSorting.SortDirectoryInPlace | file_organizer/file_sorter.py:31-34 | an existing directory is sorted in place: the date phase strictly before the extension phase, which receives the by_date flag. Nothing outside it changes |
| RunSorting.PhasesBoth | file_organizer/file_sorter.py:31-34 | with both options and no collisions, the result is the date placement followed by the category placement inside every folder, and nothing is logged |
| RunSorting.PhasesBothTwice | file_organizer/file_sorter.py:31-34 | with both options on and no collisions, running the date and extension phases a second time changes nothing and logs nothing |
| RunSorting.PhasesBothFile | file_organizer/file_sorter.py:31-34 | with both options, every file ends at `year/category/name` when its extension has a category, and at `year/name` otherwise, unchanged |

## Left out

- Loading the configuration and the extension map (`json_loader.py`) is not
  part of this model. The constructor takes both as parsed values.
  `FileSorter.__init__` as written calls `JsonLoader()` with no arguments,
  although `JsonLoader.__init__` takes two.
- Logging is replaced by the returned sequence of caught errors.
- Creation times, `datetime.fromtimestamp` and the local time zone are left
  out. Each file carries its creation year as a natural number.
- `os.path.expanduser` is left out. A path is a sequence of names from the root
  of the tree.
- Permissions, symbolic links, file contents, metadata and cross-device moves
  are not modelled. Of the exceptions, only the kinds the tree can produce are
  modelled: NotFound, NotADirectory, FileExists, DestinationExists and
  MoveIntoItself. `PermissionError` never arises.
- Category names that are not a single path component are not modelled. In
  the source `os.path.join(path, category)` turns `Docs/PDF` into nested
  folders (with `os.makedirs` creating the missing `Docs`), and `""` or `"."`
  into the directory itself, so such a file stays where it is. The model
  treats every category name as one child name, so it matches the source
  only for non-empty names that contain no `/` and are neither `.` nor `..`.
- `os.makedirs` creating missing parent folders is not modelled. With
  single-component category names the sorter only creates children of a
  folder it has just listed.
- The handlers of the outer `try` in `sort_files` are not modelled. They fire
  only on configuration values of the wrong type, which `DirectoryConfig`
  cannot express:
  - a `path` that is not a string (`null` or a number): `os.path.expanduser`
    raises `TypeError`;
  - an entry or `sorting` value that is not an object, or a `directories` value
    that is not an object: `.get` or `.items()` raises `AttributeError`.

  In the source such an error is logged and ends the loop, so every later
  configured directory is skipped. The model also reads `by_date` and
  `by_extension` as booleans, where the source tests their truth value.
- Windows path rules for `os.path.splitext` are left out. File names from a
  listing never hold a separator.
- Concurrent changes to a directory by other processes are left out.
- DateSorting.SortFileDatePlaces: proved only when no names collide
  (`DateSafe`). With a collision, only the logging of the error is proved
  (`DateSorting.YearNameTakenLogs`).
- ExtensionSorting.SortFileExtensionsPlaces: proved only when no names collide
  and no extension has two categories (`CategorySafe`). The two-category case
  is covered separately (`ExtensionSorting.TwoCategoriesStop`).
- ExtensionSorting.SortFileExtensionsByDate: proved only for a directory with
  no file directly in it, which is what the date phase leaves.
  `ExtensionSorting.SortFileExtensionsByDateAll` covers the general case under
  a no-collision precondition on the state after the folder pass.
- RunSorting.PhasesBoth: the extension phase must be collision-free in every
  folder of the date-sorted directory. This is stated on that intermediate
  state, not on the input.
