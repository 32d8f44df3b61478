/** The part of the operating system's file system the renderer touches:
    regular files with their bytes, and directories.  Paths are compared as
    strings; parent directories are not tracked. */
module Files {

  type Bytes = seq<bv8>

  class FileSystem {
    var files: map<string, Bytes>
    var dirs: set<string>

    /** No path is both a regular file and a directory. */
    predicate Valid()
      reads this
    {
      files.Keys !! dirs
    }

    constructor (files0: map<string, Bytes>, dirs0: set<string>)
      requires files0.Keys !! dirs0
      ensures files == files0 && dirs == dirs0
      ensures Valid()
    {
      files := files0;
      dirs := dirs0;
    }

    /** `os.path.exists(p)`. */
    predicate Exists(p: string)
      reads this
    {
      p in files || p in dirs
    }

    /** `os.path.isfile(p)`. */
    predicate IsFile(p: string)
      reads this
    {
      p in files
    }

    /** `os.makedirs(p)` for a path that does not exist yet. */
    method MakeDirs(p: string)
      requires Valid() && !Exists(p)
      modifies this
      ensures files == old(files) && dirs == old(dirs) + {p}
      ensures Valid()
    {
      dirs := dirs + {p};
    }

    /** Opening `p` for writing and writing `data`: the file is created or
        replaced.  A directory cannot be opened for writing. */
    method WriteFile(p: string, data: Bytes)
      requires Valid() && p !in dirs
      modifies this
      ensures files == old(files)[p := data] && dirs == old(dirs)
      ensures Valid()
    {
      files := files[p := data];
    }

    /** Opening a regular file for reading and reading all of it. */
    method ReadFile(p: string) returns (data: Bytes)
      requires p in files
      ensures data == files[p]
    {
      data := files[p];
    }
  }
}
