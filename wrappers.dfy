/** Failure-carrying results shared by the codec and the object store. */
module Wrappers {

  datatype Option<+T> = None | Some(value: T)

  datatype Result<+R, +E> = Success(value: R) | Failure(error: E)

  /** The result of an operation that only succeeds or fails. */
  datatype Outcome<+E> = Pass | Fail(error: E)

  /**
   * The Python exceptions that the hash-object and cat-file paths can raise.
   * The three file-system ones are the OSError subclasses that `open` and
   * `os.makedirs` raise; `ZlibError` is what `zlib.decompress` raises on data
   * it cannot inflate; `ValueError` is what unpacking a one-element split into
   * `header, content` raises; `NameError` names an unbound module.
   */
  datatype Error =
    | FileNotFound(path: string)
    | NotADirectory(path: string)
    | IsADirectory(path: string)
    | FileExists(path: string)
    | ZlibError
    | ValueError
    | NameError(name: string)
  {
    /** True of the errors the operating system reports through OSError. */
    predicate IsOSError() {
      FileNotFound? || NotADirectory? || IsADirectory? || FileExists?
    }
  }
}
