/** File-system effects of the scripts, as descriptions instead of actions.
    A path is the list of its components, so `os.path.join(a, b)` is `a + [b]`. */
module FileOps {

  type Path = seq<string>

  function Join(dir: Path, name: string): (p: Path)
    ensures |p| == |dir| + 1 && p[..|dir|] == dir && p[|dir|] == name
  {
    dir + [name]
  }

  /** `os.path.dirname(p)`: every component but the last. */
  function DirName(p: Path): (d: Path)
    ensures |p| > 0 ==> p == Join(d, p[|p| - 1])
    ensures |p| == 0 ==> d == []
  {
    if |p| == 0 then [] else p[..|p| - 1]
  }

  /** `shutil.copy(src, dst)`. */
  datatype FileCopy = FileCopy(src: Path, dst: Path)
}
