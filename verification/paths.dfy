/** Filesystem paths the way `pathlib` reports them. */
module Paths {

  /**
   * A path as `pathlib` splits it: the parent directory, the stem and the
   * suffix (`/runs/a/report__v2.md` is `Path("/runs/a", "report__v2", ".md")`).
   */
  datatype Path = Path(parent: string, stem: string, suffix: string)

  /** `path.name`. */
  function Name(p: Path): string {
    p.stem + p.suffix
  }

  /** `str(parent / name)`: one separator between the two parts. */
  function JoinPath(parent: string, name: string): string {
    if parent != [] && parent[|parent| - 1] == '/' then parent + name
    else parent + "/" + name
  }

  /** `str(path)`, the key under which the service indexes a file. */
  function Str(p: Path): (r: string)
    ensures r != []
  {
    JoinPath(p.parent, Name(p))
  }
}
