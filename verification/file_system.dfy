/**
 * What the services learn from the file system: the entries `fs.readdir`
 * lists and what `fs.stat` says about each.
 */
module FileSystem {
  /** The fields of `fs.Stats` the services read; times in milliseconds. */
  datatype FileStat = FileStat(size: int, birthtime: int, mtime: int)

  /** The outcome of `fs.stat` on an entry: it threw with a message, or found a directory or a regular file. */
  datatype StatResult = StatFailed(message: string) | IsDirectory | IsFile(stat: FileStat)

  datatype DirEntry = DirEntry(name: string, stat: StatResult)

  /**
   * A folder as `fs.pathExists` and then `fs.readdir` see it: it does not
   * exist, reading it threw with a message, or it lists these entries.
   */
  datatype Listing = Missing | Unreadable(message: string) | Listed(entries: seq<DirEntry>)

  /** A name `fs.readdir` can list: non-empty and free of '/'. */
  predicate ProperName(name: string) {
    name != [] && '/' !in name
  }
}
