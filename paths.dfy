/** File paths as the pipeline builds them with `pathlib`: a directory, a stem
    and a suffix (`Path.parent`, `Path.stem`, `Path.suffix`). Directories
    are plain strings joined with "/". */
module Paths {

  datatype FilePath = FilePath(dir: string, stem: string, suffix: string)
  {
    /** `Path.name` */
    function Name(): string { stem + suffix }

    /** `str(path)` */
    function ToString(): string { JoinDir(dir, Name()) }

    /** `path.with_stem(s)` */
    function WithStem(s: string): FilePath { FilePath(dir, s, suffix) }
  }

  /** `Path(d) / name` rendered as a string, equal to Python's only up to
      path normalisation: `pathlib` drops a `.` directory and a trailing
      separator (`Path(".") / "n"` is `n`, `Path("a/") / "n"` is `a/n`),
      which this join keeps (`./n`, `a//n`). Both name the same file. */
  function JoinDir(d: string, name: string): string
  {
    if d == "" then name else d + "/" + name
  }

  /** `Path(d) / (stem + suffix)` */
  function InDir(d: string, stem: string, suffix: string): FilePath
  {
    FilePath(d, stem, suffix)
  }
}
