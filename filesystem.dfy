/** The working directory as the scripts see it: the set of paths that exist in it,
    with the two operations they apply to it, `os.remove` and `os.rename`. File
    contents are not modelled. */
module FileSystem {
  import opened Wrappers

  type Directory = set<string>

  /** The `FileNotFoundError` that `os.remove` and `os.rename` raise. */
  datatype FsError = FileNotFound(name: string)

  /** `os.remove(name)`: deletes an existing file, raises when it is missing. */
  function Remove(dir: Directory, name: string): (r: Result<Directory, FsError>)
    ensures r.Success? <==> name in dir
    ensures r.Success? ==> name !in r.value && forall x :: x != name ==> (x in r.value <==> x in dir)
    ensures r.Failure? ==> r.error == FileNotFound(name)
  {
    if name in dir then Success(dir - {name}) else Failure(FileNotFound(name))
  }

  /** `os.rename(src, dst)` with POSIX semantics: an existing `dst` is replaced;
      raises when `src` is missing. */
  function Rename(dir: Directory, src: string, dst: string): (r: Result<Directory, FsError>)
    ensures r.Success? <==> src in dir
    ensures r.Success? ==> dst in r.value && (src != dst ==> src !in r.value)
    ensures r.Success? ==> forall x :: x != src && x != dst ==> (x in r.value <==> x in dir)
    ensures r.Failure? ==> r.error == FileNotFound(src)
  {
    if src in dir then Success(dir - {src} + {dst}) else Failure(FileNotFound(src))
  }
}
