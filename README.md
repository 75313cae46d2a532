# myGit loose objects, modelled in Dafny

myGit is a small Git clone. Its `main()` (app/main.py) handles two object commands:

- `hash-object -w <file>` is meant to frame the file's bytes as a blob, `blob <len>\0<content>`, and to name the frame by its SHA-1 hex digest `d`. It would then create the fan-out directory `.git/objects/<d[:2]>` if it is missing and write the zlib-compressed frame to `<d[2:]>` inside that directory. As written it never gets that far: `hashlib` is not imported (app/main.py:1-3), so the digest line (app/main.py:40) raises NameError after the frame is built and before anything is written. The model has both: `HashObjectAsWritten` is the code as written, and `HashObject` is the command with `hashlib` imported.
- `cat-file -p <d>` opens `.git/objects/<d[:2]>/<d[2:]>`, inflates it, splits it at the first NUL byte and prints what follows.

This project models both commands in four modules:

- `Wrappers` holds `Option`, `Result`, `Outcome` and the Python exceptions that the two commands can raise.
- `BlobCodec` covers the byte format. It defines the decimal length field, the header, the frame, `bytes.split(b"\0", maxsplit=1)` and the unpacking into `header, content`. Its lemmas give the frame's exact layout, show that the header holds no NUL, and prove the round trip. Splitting a frame gives back the header text and exactly the content, even when the content holds NUL bytes. They also show that the length field reads back as the content's length.
- `FanOut` covers the path logic. It defines Python's `s[:2]` / `s[2:]` slicing, `os.path.join`, and the reader's and the writer's spelling of an object's path. It proves that the two spellings agree exactly for digests that are non-empty and have no `/` at the cut, and that every 40-character hex digest is one of them.
- `ObjectStore` holds a `Repository` class. Its fields are the working directory's `files` (path to bytes) and `dirs`. It has methods for `os.path.exists`, `os.makedirs`, writing a file and reading a file, and on top of these it builds `CatFile` as `main()` does, `HashObjectAsWritten` as `main()` does, and `HashObject` as `main()` does once `hashlib` is imported. zlib and SHA-1 are passed to the constructor as functions. `Valid()` requires that inflate undoes deflate and that every digest is 40 lower-case hex characters. It also keeps the directory tree well formed. `HashObject` changes only the one file at the digest's path. It creates the fan-out directory only when that directory is absent, and it changes nothing when it fails. The client `HashThenCat` proves that cat-file of the written digest returns the original content.

Three properties of the code shape the model:

- The code always rewrites the object file; it does not skip an existing object. `HashTwice` shows that the second write leaves the same files anyway.
- cat-file does not validate or return the object kind; it keeps whatever follows the first NUL.
- Failures are the Python exceptions raised on this path.

## Model

| member | source | states |
|---|---|---|
| `BlobCodec.Decimal` | app/main.py:36 | `str(len)` is a non-empty string of decimal digits that starts with `0` only for zero, and is exactly `0` for zero |
| `BlobCodec.DecimalRoundTrip` | app/main.py:36 | reading the rendered digits back gives the number rendered |
| `BlobCodec.EncodeAscii` | app/main.py:36 | `.encode()` of ASCII text gives one byte per character with its code, and decoding the bytes gives the text back |
| `BlobCodec.HeaderText` | app/main.py:36 | `f"blob {len}"` is ASCII `blob ` followed only by digits, with no NUL |
| `BlobCodec.BlobHeader` | app/main.py:36 | the encoded header is the encoded header text plus one final NUL terminator |
| `BlobCodec.Frame` | app/main.py:37 | `header + content` is longer than the content and ends with the content unchanged |
| `BlobCodec.HeaderHasNoNul` | app/main.py:36 | the bytes of `blob <len>` hold no NUL, so the terminator is the frame's first NUL |
| `BlobCodec.FrameLayout` | app/main.py:36-37 | the frame is ASCII `blob `, the decimal length, one NUL, then the content, byte for byte |
| `BlobCodec.HeaderStatesLength` | app/main.py:36 | the number in the frame's header, parsed back, is the byte length of the content |
| `BlobCodec.HelloExample` | app/main.py:36-37 | the content `hello\n` frames as `blob 6\0hello\n` and splits back to `hello\n` |
| `BlobCodec.FirstIndexOf` | app/main.py:25 | gives the index of the first occurrence of a byte, or None exactly when the byte does not occur |
| `BlobCodec.SplitOnce` | app/main.py:25 | `split(sep, maxsplit=1)` gives two parts joined by `sep` with no `sep` in the first part when `sep` occurs, else the input alone |
| `BlobCodec.SplitHeader` | app/main.py:25 | unpacking into `header, content` succeeds iff a NUL occurs, and cuts at the first one; otherwise it raises ValueError |
| `BlobCodec.CutAtFirstNulUnique` | app/main.py:25 | a byte string has only one cut at its first NUL |
| `BlobCodec.SplitIgnoresHeader` | app/main.py:25-26 | cat-file keeps everything after the first NUL whatever precedes it; the header is not checked |
| `BlobCodec.FrameRoundTrip` | app/main.py:25-37 | splitting a frame gives back `blob <len>` and exactly the original content, NUL bytes in it included |
| `FanOut.Take` | app/main.py:43 | Python's `s[:n]` is the prefix of `s` of length `n`, or all of `s` when it is shorter |
| `FanOut.Drop` | app/main.py:44 | Python's `s[n:]` is the suffix of `s` after its first `n` characters, empty when `s` is shorter |
| `FanOut.PathJoin` | app/main.py:49 | `os.path.join(a, b)` always ends with `b`; it is `b` when `b` is absolute, and otherwise it is `a`, then one `/` exactly when `a` is non-empty and does not already end with `/`, then `b` |
| `FanOut.ReadPath` | app/main.py:23 | cat-file's path is `.git/objects/`, then `d[:2]` and `/`, then `d[2:]` at the end, one character longer than the prefix and the digest |
| `FanOut.ObjectDir` | app/main.py:43 | hash-object's directory is `.git/objects/` followed by the first two characters of the digest, or all of it when shorter |
| `FanOut.ObjectFile` | app/main.py:44 | the file name is what remains of the digest after the directory's part: the two put together give the digest |
| `FanOut.WritePath` | app/main.py:49 | hash-object's path ends with the file name `d[2:]` |
| `FanOut.TakeDrop` | app/main.py:43-44 | `d[:2] + d[2:] == d`, and the directory part has at most two characters |
| `FanOut.ReadWriteAgree` | app/main.py:43-49 | the writer's `os.path.join` path equals the reader's f-string path iff the digest is non-empty and has no `/` at the cut |
| `FanOut.HexDigestPath` | app/main.py:23-49 | for a 40-char hex digest both sides use `.git/objects/<d[..2]>/<d[2..]>`, with a 38-char file name that holds no `/` |
| `ObjectStore.AncestorsNested` | app/main.py:47 | a directory above a directory above a path is above that path, so `os.makedirs` leaves a closed tree |
| `ObjectStore.AncestorsOfChild` | app/main.py:49 | the directories above `dir/name` are `dir` and those above it |
| `ObjectStore.Repository.BlobDigest` | app/main.py:40 | the digest hash-object gives content, the SHA-1 of its frame, is forty lower-case hex characters |
| `ObjectStore.Repository.Exists` | app/main.py:46 | true iff the path is a file or a directory |
| `ObjectStore.Repository.MakeDirs` | app/main.py:47 | creates the directory and all missing ones above it; fails, changing nothing, for the empty path, an existing path, or a file above it |
| `ObjectStore.Repository.WriteFile` | app/main.py:49-50 | writes exactly the one file when the path is non-empty, its directories exist and it is not a directory; otherwise nothing changes |
| `ObjectStore.Repository.ReadFile` | app/main.py:23-24 | returns the file's bytes iff the path is a file, otherwise an OSError |
| `ObjectStore.Repository.CatFile` | app/main.py:20-26 | gives an OSError for a missing file, zlib.error for data that will not inflate, ValueError when there is no NUL, and otherwise the bytes after the first NUL |
| `ObjectStore.Repository.HashObject` | app/main.py:27-53 | succeeds iff the object can be stored; then it returns the frame's digest, changes only the file at its path, creates the fan-out directory only when absent, and changes nothing on failure |
| `ObjectStore.Repository.HashObjectAsWritten` | app/main.py:40 | as written, hash-object raises NameError for `hashlib` before writing anything |
| `ObjectStore.HashThenCat` | app/main.py:20-53 | cat-file of the digest hash-object returns gives back the original content |
| `ObjectStore.HashTwice` | app/main.py:49-50 | a second hash-object of the same content returns the same digest and leaves the files as one write leaves them |
| `ObjectStore.FreshRoundTrip` | app/main.py:43-50 | in an empty working directory the write succeeds with the frame's digest and cat-file returns the content |
| `ObjectStore.FreshRoundTripAsWritten` | app/main.py:40 | in an empty working directory the as-written hash-object fails and cat-file then finds no file |

## Left out

- The `init` command (app/main.py:13-19) is not modelled. It only creates directories and writes the fixed `HEAD` text. A `Repository` starts as an empty working directory, and `os.makedirs` creates `.git/objects/..` on the first write.
- Command-line dispatch over `sys.argv`, the `-p` / `-w` flag checks and the "Unknown command" error (app/main.py:12, :20-22, :27-29, :55-56) are not modelled. `CatFile` takes the digest and `HashObject` takes the file's bytes as parameters.
- Reading the input file (app/main.py:32-33) is not modelled; its bytes are the `content` parameter.
- The UTF-8 decode and the printing of the content (app/main.py:26) are not modelled, and neither is the printing of the digest (app/main.py:53). `CatFile` returns the bytes. Content that is not valid UTF-8 would make the real command raise after this point.
- SHA-1 and zlib are not computed. They are functions given to the `Repository` constructor, and only the laws in `Valid()` are assumed: inflate undoes deflate, and digests are 40 lower-case hex characters. Digest collisions are not considered.
- The file system has only files and directories, and paths are plain strings. There is no normalisation of `//`, trailing `/`, `..` or symbolic links. Permissions, full disks and other I/O failures are not modelled, and every OSError subclass that can occur is reported as one of four kinds.
- The code is single-threaded, so concurrent writers are not modelled.

## Findings

| source | as written | input that shows it | evidently intended | confidence | as-written member | corrected member |
|---|---|---|---|---|---|---|
| app/main.py:40 | `hashlib.sha1(store)` is called but `hashlib` is never imported (imports are `sys`, `os`, `zlib` at app/main.py:1-3), so every `hash-object -w` raises NameError after framing and before creating any directory or file | any `hash-object -w <file>`, e.g. a file holding `hello\n` | `import hashlib`, so that the digest is computed and the object is written | high, not executed | `ObjectStore.Repository.HashObjectAsWritten` (with `ObjectStore.FreshRoundTripAsWritten`: cat-file then finds nothing) | `ObjectStore.Repository.HashObject` (with `ObjectStore.HashThenCat` and `ObjectStore.FreshRoundTrip`: the content round-trips) |
