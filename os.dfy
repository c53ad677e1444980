/** The file system as the sorter sees it through os.scandir, os.path.getctime,
    os.makedirs and shutil.move: one mutable tree, and the order in which the
    platform lists names. */
module Os {
  import opened FsTree
  import Sorting

  class FileSystem {
    var root: Directory
    const order: Enumerator

    constructor (root: Directory, order: Enumerator)
      ensures this.root == root && this.order == order
    {
      this.root := root;
      this.order := order;
    }

    /** os.scandir(p): a listing of the folder at `p` taken now. */
    method ScanDir(p: Path) returns (r: Result<seq<Item>>)
      ensures Resolve(root, p).Err? ==> r == Err(Resolve(root, p).error)
      ensures Resolve(root, p).Ok? ==> r == Ok(Snapshot(Resolve(root, p).value, order))
    {
      match Resolve(root, p)
      case Err(e) => r := Err(e);
      case Ok(d) => r := Ok(Snapshot(d, order));
    }

    /** datetime.fromtimestamp(os.path.getctime(p/name)).year */
    method CreationYear(p: Path, name: string) returns (r: Result<nat>)
      ensures Resolve(root, p).Err? ==> r == Err(Resolve(root, p).error)
      ensures Resolve(root, p).Ok? ==> r == Sorting.YearOf(Resolve(root, p).value, name)
    {
      match Resolve(root, p)
      case Err(e) => r := Err(e);
      case Ok(d) => r := Sorting.YearOf(d, name);
    }

    /** os.makedirs(p/name, exist_ok=True), for a parent `p` that exists. */
    method MakeDirs(p: Path, name: string) returns (err: Option<OsError>)
      modifies this
      ensures Resolve(old(root), p).Err? ==> root == old(root) && err == Some(Resolve(old(root), p).error)
      ensures Resolve(old(root), p).Ok? ==>
        var made := MakeDirIn(Resolve(old(root), p).value, name);
        if made.Ok? then root == Replace(old(root), p, made.value) && err == None
        else root == old(root) && err == Some(made.error)
    {
      match Resolve(root, p)
      case Err(e) => err := Some(e);
      case Ok(d) =>
        match MakeDirIn(d, name)
        case Err(e) => err := Some(e);
        case Ok(d') => root := Replace(root, p, d'); err := None;
    }

    /** shutil.move(p/name, p/target/name). */
    method Move(p: Path, name: string, target: string) returns (err: Option<OsError>)
      modifies this
      ensures Resolve(old(root), p).Err? ==> root == old(root) && err == Some(Resolve(old(root), p).error)
      ensures Resolve(old(root), p).Ok? ==>
        var moved := MoveIn(Resolve(old(root), p).value, name, target);
        if moved.Ok? then root == Replace(old(root), p, moved.value) && err == None
        else root == old(root) && err == Some(moved.error)
    {
      match Resolve(root, p)
      case Err(e) => err := Some(e);
      case Ok(d) =>
        match MoveIn(d, name, target)
        case Err(e) => err := Some(e);
        case Ok(d') => root := Replace(root, p, d'); err := None;
    }
  }
}
