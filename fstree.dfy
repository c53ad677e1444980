/** The directory tree the organizer works on, and the two changes it makes to a
    directory: creating a folder (os.makedirs with exist_ok=True) and moving an
    entry into a folder (shutil.move). */
module FsTree {

  datatype Option<T> = None | Some(value: T)

  /** The operating-system failures the organizer can run into. */
  datatype OsError =
    | NotFound          // FileNotFoundError: a path or a source entry is missing
    | NotADirectory     // NotADirectoryError: a path names a regular file
    | FileExists        // FileExistsError: makedirs finds a regular file in the way
    | DestinationExists // shutil.Error: the destination folder already holds the name
    | MoveIntoItself    // shutil.Error: a folder moved into itself

  datatype Result<T> = Ok(value: T) | Err(error: OsError)

  /** A regular file carries its creation year; a folder maps names to entries. */
  datatype Entry = File(year: nat) | Dir(entries: map<string, Entry>)

  type Directory = map<string, Entry>

  /** A path as its components, taken from the root of the tree. */
  type Path = seq<string>

  /** The folder `name` of `d`, or the error that opening it raises. */
  function Child(d: Directory, name: string): (r: Result<Directory>)
    ensures r.Ok? <==> name in d && d[name].Dir?
    ensures r.Ok? ==> d[name] == Dir(r.value)
    ensures r.Err? ==> r.error == (if name in d then NotADirectory else NotFound)
  {
    if name !in d then Err(NotFound)
    else match d[name]
      case File(_) => Err(NotADirectory)
      case Dir(sub) => Ok(sub)
  }

  /** The folder at path `p` below `root`. */
  function Resolve(root: Directory, p: Path): (r: Result<Directory>)
    decreases |p|
  {
    if p == [] then Ok(root)
    else match Child(root, p[0])
      case Err(e) => Err(e)
      case Ok(sub) => Resolve(sub, p[1..])
  }

  /** `root` with the folder at `p` replaced by `d`. */
  function Replace(root: Directory, p: Path, d: Directory): (r: Directory)
    requires Resolve(root, p).Ok?
    ensures Resolve(r, p) == Ok(d)
    ensures p != [] ==> r.Keys == root.Keys
    decreases |p|
  {
    if p == [] then d
    else root[p[0] := Dir(Replace(root[p[0]].entries, p[1..], d))]
  }

  lemma {:induction false} ReplaceTwice(root: Directory, p: Path, a: Directory, b: Directory)
    requires Resolve(root, p).Ok?
    ensures Replace(Replace(root, p, a), p, b) == Replace(root, p, b)
    decreases |p|
  {
    if p != [] {
      ReplaceTwice(root[p[0]].entries, p[1..], a, b);
    }
  }

  lemma {:induction false} ReplaceResolved(root: Directory, p: Path)
    requires Resolve(root, p).Ok?
    ensures Replace(root, p, Resolve(root, p).value) == root
    decreases |p|
  {
    if p != [] {
      ReplaceResolved(root[p[0]].entries, p[1..]);
    }
  }

  /** Opening a folder of the folder at `p` is opening the path one longer. */
  lemma {:induction false} ResolveChild(root: Directory, p: Path, name: string)
    requires Resolve(root, p).Ok?
    ensures Resolve(root, p + [name]) == Child(Resolve(root, p).value, name)
    decreases |p|
  {
    if p == [] {
      assert ([] + [name])[1..] == [];
    } else {
      assert (p + [name])[0] == p[0];
      assert (p + [name])[1..] == p[1..] + [name];
      ResolveChild(root[p[0]].entries, p[1..], name);
    }
  }

  /** Replacing a folder of the folder at `p` replaces one entry of that folder. */
  lemma {:induction false} ReplaceChild(root: Directory, p: Path, name: string, x: Directory)
    requires Resolve(root, p).Ok? && Child(Resolve(root, p).value, name).Ok?
    ensures Resolve(root, p + [name]).Ok?
    ensures Replace(root, p + [name], x) == Replace(root, p, Resolve(root, p).value[name := Dir(x)])
    decreases |p|
  {
    ResolveChild(root, p, name);
    if p != [] {
      assert (p + [name])[0] == p[0];
      assert (p + [name])[1..] == p[1..] + [name];
      ReplaceChild(root[p[0]].entries, p[1..], name, x);
    }
  }

  /** os.makedirs(parent/name, exist_ok=True) in an existing parent `d`: an
      existing folder is left alone, a regular file in the way fails. */
  function MakeDirIn(d: Directory, name: string): (r: Result<Directory>)
    ensures r.Ok? <==> !(name in d && d[name].File?)
    ensures r.Err? ==> r.error == FileExists
    ensures r.Ok? ==> r.value.Keys == d.Keys + {name} && r.value[name].Dir?
    ensures r.Ok? ==> forall k :: k in d ==> r.value[k] == d[k]
    ensures r.Ok? && name !in d ==> r.value[name] == Dir(map[])
  {
    if name !in d then Ok(d[name := Dir(map[])])
    else if d[name].Dir? then Ok(d)
    else Err(FileExists)
  }

  /** shutil.move's first check: the destination `target/name` is a folder
      that already holds `name`. It is made before the source is looked at. */
  predicate Occupied(d: Directory, name: string, target: string) {
    && target in d && d[target].Dir?
    && name in d[target].entries && d[target].entries[name].Dir?
    && name in d[target].entries[name].entries
  }

  /** shutil.move(parent/name, parent/target/name) in a parent `d`. A folder
      `target/name` that already holds the name raises at once; otherwise a
      missing source raises NotFound, and the target folder must exist. A file
      of the same name there is overwritten (as a POSIX rename does); a folder
      of the same name there receives the entry. */
  function MoveIn(d: Directory, name: string, target: string): (r: Result<Directory>)
    ensures r.Ok? ==> name in d && target in d && d[target].Dir? && target != name
    ensures r.Ok? ==> r.value.Keys == d.Keys - {name}
    ensures r.Ok? ==> forall k :: k in r.value && k != target ==> r.value[k] == d[k]
    ensures Occupied(d, name, target) ==> r == Err(DestinationExists)
    ensures name !in d && !Occupied(d, name, target) ==> r == Err(NotFound)
    ensures name in d && target in d && d[target].Dir? && target != name && name !in d[target].entries ==>
      r == Ok((d - {name})[target := Dir(d[target].entries[name := d[name]])])
  {
    if Occupied(d, name, target) then Err(DestinationExists)
    else if name !in d then Err(NotFound)
    else match Child(d, target)
      case Err(e) => Err(e)
      case Ok(sub) =>
        if target == name then Err(MoveIntoItself)
        else if name in sub && sub[name].Dir? then
          Ok((d - {name})[target := Dir(sub[name := Dir(sub[name].entries[name := d[name]])])])
        else Ok((d - {name})[target := Dir(sub[name := d[name]])])
  }

  /** The order in which a directory scan or a Python set yields a set of
      names; it is chosen by the platform, so the model takes it as given. */
  type Enumerator = set<string> -> seq<string>

  /** `xs` lists each element of `s` exactly once. */
  ghost predicate Enumerates(xs: seq<string>, s: set<string>) {
    && (forall i, j :: 0 <= i < j < |xs| ==> xs[i] != xs[j])
    && (forall x :: x in xs <==> x in s)
  }

  ghost predicate ValidEnumerator(order: Enumerator) {
    forall s :: Enumerates(order(s), s)
  }

  /** One entry of an os.scandir listing; is_file() is fixed when the listing is taken. */
  datatype Item = Item(name: string, isFile: bool)

  function Listing(d: Directory, names: seq<string>): (items: seq<Item>)
    ensures |items| == |names|
    ensures forall i :: 0 <= i < |names| ==> items[i].name == names[i]
  {
    if names == [] then []
    else [Item(names[0], names[0] in d && d[names[0]].File?)] + Listing(d, names[1..])
  }

  /** The names of a listing. */
  function ListedNames(items: seq<Item>): (names: set<string>)
    ensures forall i :: 0 <= i < |items| ==> items[i].name in names
    decreases |items|
  {
    if items == [] then {} else {items[0].name} + ListedNames(items[1..])
  }

  /** os.scandir of `d`: a snapshot taken once, in the platform's order. */
  function Snapshot(d: Directory, order: Enumerator): (items: seq<Item>) {
    Listing(d, order(d.Keys))
  }
}
