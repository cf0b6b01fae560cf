/**
  A directory tree of regular files, as system calls see it: a path names a file, a directory,
  nothing, or something below a file.
*/
module FileTree {
  import opened Wrappers
  import opened Utf8
  import opened Paths

  datatype Tree = Tree(files: map<Path, Bytes>, dirs: set<Path>)

  datatype Stat = File(content: Bytes) | Absent | NotAFile

  // lstat and read: a directory, or a path below a file, is an error other than "does not exist".
  function At(tree: Tree, path: Path): Stat
  {
    if path in tree.files then File(tree.files[path])
    else if path in tree.dirs || BelowFile(tree, path) then NotAFile
    else Absent
  }

  predicate BelowFile(tree: Tree, path: Path)
  {
    exists d | d in Parents(path) :: d in tree.files
  }

  ghost predicate WellFormed(tree: Tree)
  {
    && tree.files.Keys !! tree.dirs
    && forall p | p in tree.files.Keys + tree.dirs :: Parents(p) <= tree.dirs
  }

  function Get(files: map<Path, Bytes>, path: Path): Option<Bytes>
  {
    if path in files then Some(files[path]) else None
  }

  // MkdirAll and write; refused when the path is a directory or lies below a file.
  function Put(tree: Tree, path: Path, content: Bytes): (r: Outcome<Tree>)
    ensures r.Ok? <==> path !in tree.dirs && !BelowFile(tree, path)
    ensures r.Ok? && WellFormed(tree) ==> WellFormed(r.value)
  {
    if path in tree.dirs || BelowFile(tree, path) then Refused
    else
      ParentsOfParents(path);
      PathNotItsParent(path);
      Ok(Tree(tree.files[path := content], tree.dirs + Parents(path)))
  }

  function Drop(tree: Tree, path: Path): (r: Tree)
    ensures WellFormed(tree) ==> WellFormed(r)
  {
    Tree(tree.files - {path}, tree.dirs)
  }

  lemma ParentsOfParents(path: Path)
    ensures forall d | d in Parents(path) :: Parents(d) <= Parents(path)
  {
    forall d, e | d in Parents(path) && e in Parents(d) ensures e in Parents(path) {
      var i :| 0 <= i < |path| && path[i] == '/' && d == path[..i];
      var j :| 0 <= j < |d| && d[j] == '/' && e == d[..j];
      assert path[j] == '/' && e == path[..j];
    }
  }

  lemma PathNotItsParent(path: Path)
    ensures path !in Parents(path)
  {}
}
