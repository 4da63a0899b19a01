/**
 * The file system as the generator sees it through System.IO: a map from
 * physical file path to text content, and the set of directories that
 * exist. Directory.Exists, Directory.CreateDirectory and File.WriteAllText
 * are the operations on it.
 */
module IO {

  /** A snapshot of the file system. */
  datatype FsState = FsState(files: map<string, string>, dirs: set<string>)

  class FileSystem {
    var files: map<string, string>
    var dirs: set<string>

    /** The current snapshot. */
    function State(): FsState
      reads this
    {
      FsState(files, dirs)
    }

    constructor (initial: FsState)
      ensures State() == initial
    {
      files := initial.files;
      dirs := initial.dirs;
    }

    /** Directory.Exists */
    method DirectoryExists(directory: string) returns (exists_: bool)
      ensures exists_ <==> directory in dirs
    {
      exists_ := directory in dirs;
    }

    /** Directory.CreateDirectory: afterwards the directory exists; files
        are untouched. */
    method CreateDirectory(directory: string)
      modifies this
      ensures dirs == old(dirs) + {directory}
      ensures files == old(files)
    {
      dirs := dirs + {directory};
    }

    /** File.WriteAllText: creates the file or overwrites it entirely;
        every other file keeps its content. */
    method WriteAllText(path: string, contents: string)
      modifies this
      ensures files == old(files)[path := contents]
      ensures dirs == old(dirs)
    {
      files := files[path := contents];
    }
  }
}
