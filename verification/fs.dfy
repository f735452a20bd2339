/** The part of the file system the walker sees, as a finite value.
    Each `read_dir` call, each item its iterator yields and each
    `file_type` call is replaced by the answer it would give. Items keep
    the order in which the listing yields them. */
module FileSystem {

  /** The outcome of `read_dir` on one path. */
  datatype Listing =
    | Listed(items: seq<Item>)  // the directory could be opened
    | ListError                 // `read_dir` failed (permission, vanished, not a directory)

  /** One item produced by iterating a listing. */
  datatype Item =
    | Yielded(entry: DirEntry)  // the iterator produced an entry
    | IterError                 // the iterator produced an error

  /** A listed entry: its file name and what `file_type` reports for it. */
  datatype DirEntry = DirEntry(name: string, fileType: TypeResult)

  /** The outcome of `file_type` on one entry. */
  datatype TypeResult =
    | Typed(kind: FileType)
    | TypeError

  /** What `file_type` can tell apart. A directory carries the listing
      that `read_dir` gives for its path. Symbolic links, sockets, devices
      and the like are `Other`. */
  datatype FileType =
    | Directory(contents: Listing)
    | RegularFile
    | Other

  /** A hidden entry is one whose name starts with a dot. */
  predicate IsHidden(name: string)
  {
    |name| > 0 && name[0] == '.'
  }

  /** An entry passes the visibility filter unless it is hidden and hidden
      entries were not asked for. */
  predicate Shown(name: string, includeHidden: bool)
  {
    !(IsHidden(name) && !includeHidden)
  }
}
