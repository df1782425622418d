/**
 * The parts of the host file system the frontend queries: which paths exist
 * (`os.path.exists`), which are directories (`os.path.isdir`) and what a
 * directory lists (`os.listdir`, in the order the system returns).
 */
module Host {

  datatype FileSystem = FileSystem(files: set<string>, dirs: map<string, seq<string>>)

  /** `os.path.exists`: a regular file or a directory. */
  predicate Exists(fs: FileSystem, path: string) {
    path in fs.files || path in fs.dirs
  }

  /** `os.path.isdir`. */
  predicate IsDir(fs: FileSystem, path: string) {
    path in fs.dirs
  }

  /** `os.listdir` of a directory. */
  function ListDir(fs: FileSystem, path: string): seq<string>
    requires IsDir(fs, path)
  {
    fs.dirs[path]
  }
}
