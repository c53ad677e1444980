/** The outcome of a classify-and-place pass, stated without reference to any
    loop: which folders a directory gains, and where each moved file lands.
    The date and the extension phases are both instances of it. */
module Placement {
  import opened FsTree
  import opened Sorting

  /** The names of the regular files directly in `d`. */
  function FilesOf(d: Directory): (files: set<string>) {
    set n | n in d && d[n].File?
  }

  /** `d` with an empty folder added for every name of `s` it lacks. */
  function WithFolders(d: Directory, s: set<string>): (r: Directory)
    ensures r.Keys == d.Keys + s
    ensures forall k :: k in d ==> r[k] == d[k]
    ensures forall k :: k in s && k !in d ==> r[k] == Dir(map[])
  {
    map k | k in d.Keys + s :: if k in d then d[k] else Dir(map[])
  }

  /** The entries of `d` named in `moved` whose destination is `k`. */
  function Arrivals(d: Directory, moved: set<string>, dest: map<string, string>, k: string): (arrived: Directory) {
    map n | n in moved && n in d && n in dest && dest[n] == k :: d[n]
  }

  /** `d` after each entry named in `moved` has gone into the folder `dest[n]`. */
  function MoveAll(d: Directory, moved: set<string>, dest: map<string, string>): (moved': Directory) {
    map k | k in d && k !in moved ::
      if d[k].Dir? then Dir(d[k].entries + Arrivals(d, moved, dest, k)) else d[k]
  }

  /** Every entry named in `moved` is a file with a destination folder that exists
      and does not yet hold its name. */
  ghost predicate Ready(d: Directory, moved: set<string>, dest: map<string, string>) {
    forall n :: n in moved ==>
      && n in d && d[n].File? && n in dest
      && dest[n] in d && d[dest[n]].Dir? && n !in d[dest[n]].entries
  }

  lemma MoveNone(d: Directory, dest: map<string, string>)
    ensures MoveAll(d, {}, dest) == d
  {
    forall k | k in d && d[k].Dir? ensures d[k].entries + Arrivals(d, {}, dest, k) == d[k].entries {
      assert Arrivals(d, {}, dest, k) == map[];
    }
  }

  lemma ArrivalsAdd(d: Directory, moved: set<string>, dest: map<string, string>, n: string, k: string)
    requires n !in moved && n in d && n in dest
    ensures Arrivals(d, moved + {n}, dest, k) ==
      if k == dest[n] then Arrivals(d, moved, dest, k)[n := d[n]] else Arrivals(d, moved, dest, k)
  {
  }

  /** One shutil.move of a ready file extends the placement by that file. */
  lemma MoveOne(d: Directory, moved: set<string>, dest: map<string, string>, n: string)
    requires Ready(d, moved + {n}, dest) && n !in moved
    ensures MoveIn(MoveAll(d, moved, dest), n, dest[n]) == Ok(MoveAll(d, moved + {n}, dest))
  {
    var cur := MoveAll(d, moved, dest);
    var t := dest[n];
    assert t != n && t !in moved;
    var inT := d[t].entries + Arrivals(d, moved, dest, t);
    assert cur[t] == Dir(inT) && cur[n] == d[n];
    var next := (cur - {n})[t := Dir(inT[n := d[n]])];
    assert MoveIn(cur, n, t) == Ok(next);
    var want := MoveAll(d, moved + {n}, dest);
    assert next.Keys == want.Keys;
    forall k | k in next ensures next[k] == want[k] {
      ArrivalsAdd(d, moved, dest, n, k);
      if k == t {
        assert want[k] == Dir(d[t].entries + Arrivals(d, moved, dest, t)[n := d[n]]);
        assert d[t].entries + Arrivals(d, moved, dest, t)[n := d[n]] == inT[n := d[n]];
      } else {
        assert next[k] == cur[k];
      }
    }
    assert next == want;
  }

  lemma WithFoldersTwice(d: Directory, s: set<string>, t: set<string>)
    ensures WithFolders(WithFolders(d, s), t) == WithFolders(d, s + t)
  {
  }

  lemma WithNoFolders(d: Directory)
    ensures WithFolders(d, {}) == d
  {
  }

  /** makedirs of a name that no file holds adds it to the folders. */
  lemma MakeDirWithFolders(d: Directory, s: set<string>, k: string)
    requires !(k in d && d[k].File?)
    ensures MakeDirIn(WithFolders(d, s), k) == Ok(WithFolders(d, s + {k}))
  {
    var w := WithFolders(d, s);
    if k in w {
      assert WithFolders(d, s + {k}) == w;
    } else {
      assert WithFolders(d, s + {k}) == w[k := Dir(map[])];
    }
  }

  /** The makedirs loop creates every listed name when no file is in the way. */
  lemma {:induction false} MakeFoldersAll(d: Directory, s: set<string>, names: seq<string>)
    requires forall k :: k in names ==> !(k in d && d[k].File?)
    ensures MakeFolders(WithFolders(d, s), names) == (WithFolders(d, s + set k | k in names), None)
    decreases |names|
  {
    if names == [] {
      assert s + (set k | k in names) == s;
    } else {
      MakeDirWithFolders(d, s, names[0]);
      MakeFoldersAll(d, s + {names[0]}, names[1..]);
      assert s + {names[0]} + (set k | k in names[1..]) == s + set k | k in names;
    }
  }

  /** Moving the head of a listing, then the rest of it. */
  lemma MovedHead(moved: set<string>, names: seq<string>, s: set<string>)
    requires names != []
    ensures (if names[0] in s then moved + {names[0]} else moved) + (set k | k in names[1..] && k in s) ==
      moved + (set k | k in names && k in s)
  {
    assert names == [names[0]] + names[1..];
  }

  /** Handling the head of a listing, then the rest of it. */
  lemma AddHead(done: set<string>, names: seq<string>)
    requires names != []
    ensures done + {names[0]} + (set x | x in names[1..]) == done + (set x | x in names)
  {
  }

  /** A listing of `keys` names every member of `s` when `s` is part of `keys`. */
  lemma ListedAmong(names: seq<string>, keys: set<string>, s: set<string>)
    requires Enumerates(names, keys) && s <= keys
    ensures {} + (set k | k in names && k in s) == s
  {
  }

  /** A listing of `keys` names every key. */
  lemma ListedKeys(names: seq<string>, keys: set<string>)
    requires Enumerates(names, keys)
    ensures {} + (set k | k in names) == keys
  {
  }
}
