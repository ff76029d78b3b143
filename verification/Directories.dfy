/** Paths and the directories they lead through, as a file system keeps them. */
module Directories {
  import opened ArtifactOverlay

  /** The directories on the way to a path. */
  function DirsOf(p: Path): set<Path> {
    set i | 0 <= i < |p| && p[i] == '/' :: p[..i]
  }

  function AllDirs(paths: set<Path>): set<Path> {
    set p, d | p in paths && d in DirsOf(p) :: d
  }

  /** What any file system keeps: the way to every entry leads through directories, and none of them is a file. */
  ghost predicate Rooted(files: set<Path>, dirs: set<Path>) {
    files !! dirs && AllDirs(files) <= dirs && AllDirs(dirs) <= dirs
  }

  /** No path leads through another. */
  ghost predicate PrefixFree(paths: set<Path>) {
    forall p, q | p in paths && q in paths :: p !in DirsOf(q)
  }

  /** A file can be put at the path: no directory is there, and no file on the way. */
  predicate Placeable(files: set<Path>, dirs: set<Path>, p: Path) {
    p !in dirs && DirsOf(p) !! files
  }

  lemma DirsCompose(a: Path, b: Path, c: Path)
    requires a in DirsOf(b) && b in DirsOf(c)
    ensures a in DirsOf(c) && |a| < |b| < |c|
  {
    var i :| 0 <= i < |b| && b[i] == '/' && a == b[..i];
    var j :| 0 <= j < |c| && c[j] == '/' && b == c[..j];
    assert c[..i] == a && c[i] == '/';
  }

  lemma DirsShorter(p: Path)
    ensures forall d | d in DirsOf(p) :: |d| < |p|
  {
  }

  lemma AllDirsClosed(paths: set<Path>)
    ensures AllDirs(AllDirs(paths)) <= AllDirs(paths)
  {
    forall d | d in AllDirs(AllDirs(paths)) ensures d in AllDirs(paths) {
      var b :| b in AllDirs(paths) && d in DirsOf(b);
      var c :| c in paths && b in DirsOf(c);
      DirsCompose(d, b, c);
    }
  }

  lemma AllDirsMore(paths: set<Path>, p: Path)
    ensures AllDirs(paths + {p}) == AllDirs(paths) + DirsOf(p)
  {
    hide DirsOf;
  }

  lemma FilesAreNotDirs(files: set<Path>, dirs: set<Path>)
    requires Rooted(files, dirs)
    ensures forall p | p in files :: p !in dirs && DirsOf(p) !! files && DirsOf(p) <= dirs
  {
    hide DirsOf;
    forall p, d | p in files && d in DirsOf(p) ensures d in dirs {
      assert d in AllDirs(files);
    }
  }

  lemma RootedMore(files: set<Path>, dirs: set<Path>, p: Path)
    requires Rooted(files, dirs)
    ensures DirsOf(p) !! files ==> Rooted(files, dirs + DirsOf(p))
    ensures Placeable(files, dirs, p) ==> Rooted(files + {p}, dirs + DirsOf(p)) && p !in dirs + DirsOf(p)
  {
    DirsShorter(p);
    forall a, b | a in DirsOf(b) && b in DirsOf(p) ensures a in DirsOf(p) {
      DirsCompose(a, b, p);
    }
    hide DirsOf;
  }

  /** What is inside a directory when all deeper ones are done is, in the end, a file. */
  lemma Inside(files: set<Path>, dirs: set<Path>, rest: set<Path>, d: Path)
    requires exists p :: p in files + dirs && d in DirsOf(p)
    requires forall q | q in rest :: |q| <= |d|
    requires forall q | q in dirs && q !in rest && q != d :: q in AllDirs(files)
    ensures d in AllDirs(files)
  {
    var p :| p in files + dirs && d in DirsOf(p);
    DirsShorter(p);
    if p !in files {
      var f :| f in files && p in DirsOf(f);
      DirsCompose(d, p, f);
    }
  }

  lemma Longest(paths: set<Path>) returns (p: Path)
    requires paths != {}
    ensures p in paths && forall q | q in paths :: |q| <= |p|
  {
    p :| p in paths;
    if paths != {p} {
      var q := Longest(paths - {p});
      p := if |p| < |q| then q else p;
    }
  }

  lemma AllDirsGrow(some: set<Path>, all: set<Path>)
    ensures some <= all ==> AllDirs(some) <= AllDirs(all)
  {
    hide DirsOf;
  }
}
