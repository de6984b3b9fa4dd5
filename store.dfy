/**
 * The file system the scripts read and write, as a map from path to contents. A relative
 * path is looked up under the working directory; dot segments and repeated separators are
 * not collapsed on lookup, and directories are not entries of their own.
 */
module Store {
  import opened Wrappers
  import Paths

  /** The key a path opens in working directory `cwd`. */
  function Key(cwd: string, path: string): string
  {
    Paths.Join(cwd, path)
  }

  class FileSystem {
    /** `os.getcwd()`: always absolute. */
    const cwd: string
    var files: map<string, string>

    constructor (cwd: string, files: map<string, string>)
      requires Paths.IsAbsolute(cwd)
      ensures this.cwd == cwd && this.files == files
    {
      this.cwd := cwd;
      this.files := files;
    }

    /** `os.path.exists(path)` */
    method Exists(path: string) returns (present: bool)
      ensures present <==> Key(cwd, path) in files
    {
      present := Key(cwd, path) in files;
    }

    /** `open(path, "r").read()`; None stands for FileNotFoundError. */
    method Read(path: string) returns (text: Option<string>)
      ensures text.Some? <==> Key(cwd, path) in files
      ensures text.Some? ==> text.value == files[Key(cwd, path)]
    {
      var k := Key(cwd, path);
      if k in files {
        text := Some(files[k]);
      } else {
        text := None;
      }
    }

    /** `open(path, "w")` followed by writing `text`: creates or overwrites the one key. */
    method Write(path: string, text: string)
      modifies this
      ensures files == old(files)[Key(cwd, path) := text]
    {
      files := files[Key(cwd, path) := text];
    }
  }
}
