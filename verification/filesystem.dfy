/** An immutable snapshot of the part of the filesystem the helpers query.
    Each path maps to a directory with its listing in `os.listdir` order, a
    file that `pandas.read_csv` reads as a patch table, or any other file. */
module FileSystem {
  import opened Wrappers
  import opened Tables

  datatype Node = Dir(entries: seq<string>) | TableFile(table: Table) | OtherFile

  type FileSystem = map<string, Node>

  /** `os.path.isdir(p)` */
  predicate IsDir(fs: FileSystem, p: string)
  {
    p in fs && fs[p].Dir?
  }

  /** `os.path.exists(p)` */
  predicate Exists(fs: FileSystem, p: string)
  {
    p in fs
  }

  /** `os.listdir(p)` */
  function ListDir(fs: FileSystem, p: string): seq<string>
    requires IsDir(fs, p)
  {
    fs[p].entries
  }

  /** `pandas.read_csv(p)`: the table, or None when the path is missing or
      is not a readable table (a directory, some other file). */
  function ReadCsv(fs: FileSystem, p: string): (r: Option<Table>)
    ensures r.Some? <==> Exists(fs, p) && fs[p].TableFile?
    ensures r.Some? ==> fs[p] == TableFile(r.value)
  {
    if p in fs && fs[p].TableFile? then Some(fs[p].table) else None
  }
}
