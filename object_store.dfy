/**
 * The two object commands of app/main.py as methods on an in-memory working
 * directory: `hash-object -w` (app/main.py:27-53) frames a file's bytes, names
 * them by their SHA-1, creates the fan-out directory when it is missing and
 * writes the compressed frame there; `cat-file -p` (app/main.py:20-26) reads the
 * file back, inflates it and keeps what follows the first NUL.
 *
 * The file system is two fields: `files` maps each regular file's path to its
 * bytes, `dirs` holds the directories. zlib and SHA-1 are supplied to the
 * constructor as functions; the store relies only on the laws `Valid` names.
 */
module ObjectStore {
  import opened Wrappers
  import opened BlobCodec
  import opened FanOut

  /** zlib's pair: `compress`, and a `decompress` that rejects data it cannot inflate. */
  datatype Zlib = Zlib(compress: Bytes -> Bytes, decompress: Bytes -> Option<Bytes>)

  /** Inflating what was deflated gives it back. */
  ghost predicate Lossless(z: Zlib) {
    forall x :: z.decompress(z.compress(x)) == Some(x)
  }

  /** Every digest is a forty-character lower-case hex string, as `hexdigest()` returns. */
  ghost predicate HexHasher(h: Bytes -> string) {
    forall x :: IsHexDigest(h(x))
  }

  /** The directories above a path: each prefix that ends just before a `/`. */
  function Ancestors(p: string): set<string> {
    set i | 0 < i < |p| && p[i] == '/' :: p[..i]
  }

  /** A directory above a directory above `p` is above `p`. */
  lemma AncestorsNested(p: string, q: string)
    requires q in Ancestors(p)
    ensures Ancestors(q) <= Ancestors(p)
  {
    var i :| 0 < i < |p| && p[i] == '/' && q == p[..i];
    forall x | x in Ancestors(q)
      ensures x in Ancestors(p)
    {
      var j :| 0 < j < |q| && q[j] == '/' && x == q[..j];
      assert p[j] == '/' && x == p[..j];
    }
  }

  /** The directories above `dir/name`, for a plain file name, are `dir` and those above it. */
  lemma AncestorsOfChild(dir: string, name: string)
    requires dir != "" && '/' !in name
    ensures Ancestors(dir + "/" + name) == Ancestors(dir) + {dir}
  {
    var p := dir + "/" + name;
    forall x | x in Ancestors(p)
      ensures x in Ancestors(dir) + {dir}
    {
      var i :| 0 < i < |p| && p[i] == '/' && x == p[..i];
      if i < |dir| {
        assert dir[i] == '/' && x == dir[..i];
      } else if i == |dir| {
        assert x == dir;
      } else {
        assert false;
      }
    }
    forall x | x in Ancestors(dir) + {dir}
      ensures x in Ancestors(p)
    {
      if x == dir {
        assert p[|dir|] == '/' && p[..|dir|] == dir;
      } else {
        var i :| 0 < i < |dir| && dir[i] == '/' && x == dir[..i];
        assert p[i] == '/' && p[..i] == x;
      }
    }
  }

  class Repository {
    /** Regular files, by path relative to the working directory. */
    var files: map<string, Bytes>
    /** Directories, by path relative to the working directory. */
    var dirs: set<string>
    /** `zlib.compress` / `zlib.decompress` (app/main.py:24, :50). */
    const zlib: Zlib
    /** `hashlib.sha1(...).hexdigest()` (app/main.py:40). */
    const sha1: Bytes -> string

    /**
     * The codec laws hold, nothing is both a file and a directory, the empty
     * path is neither, and every directory above an existing path is itself a
     * directory.
     */
    ghost predicate Valid()
      reads this
    {
      && Lossless(zlib)
      && HexHasher(sha1)
      && files.Keys !! dirs
      && "" !in files && "" !in dirs
      && (forall p :: p in dirs ==> Ancestors(p) <= dirs)
      && (forall p :: p in files ==> Ancestors(p) <= dirs)
    }

    /** An empty working directory. */
    constructor (zlib: Zlib, sha1: Bytes -> string)
      requires Lossless(zlib) && HexHasher(sha1)
      ensures Valid()
      ensures files == map[] && dirs == {}
      ensures this.zlib == zlib && this.sha1 == sha1
    {
      this.zlib := zlib;
      this.sha1 := sha1;
      files := map[];
      dirs := {};
    }

    /**
     * `hashlib.sha1(store).hexdigest()`: the name hash-object gives `content`,
     * the SHA-1 of its frame, forty lower-case hex characters.
     */
    function BlobDigest(content: Bytes): (d: string)
      requires HexHasher(sha1)
      ensures IsHexDigest(d)
    {
      sha1(Frame(content))
    }

    /**
     * hash-object can store `d`: neither the fan-out directory nor any directory
     * above it is a regular file, and the object's own path is not a directory.
     */
    ghost predicate CanStore(d: string)
      reads this
    {
      && ObjectDir(d) !in files
      && Ancestors(ObjectDir(d)) !! files.Keys
      && WritePath(d) !in dirs
    }

    /** `os.path.exists(p)` (app/main.py:46). */
    method Exists(p: string) returns (b: bool)
      ensures b <==> p in dirs || p in files
    {
      b := p in dirs || p in files;
    }

    /**
     * `os.makedirs(d)` (app/main.py:47): creates `d` and every missing directory
     * above it; fails, creating nothing, when `d` is empty, when it exists, or
     * when a path above it is a regular file.
     */
    method MakeDirs(d: string) returns (r: Outcome<Error>)
      requires Valid()
      modifies this
      ensures Valid() && files == old(files)
      ensures r.Pass? <==> old(d != "" && d !in dirs && d !in files && Ancestors(d) !! files.Keys)
      ensures r.Pass? ==> dirs == old(dirs) + Ancestors(d) + {d}
      ensures r.Fail? ==> dirs == old(dirs) && r.error.IsOSError()
    {
      if d == "" {
        return Fail(FileNotFound(d));
      }
      if d in dirs || d in files {
        return Fail(FileExists(d));
      }
      if Ancestors(d) * files.Keys != {} {
        return Fail(NotADirectory(d));
      }
      forall q | q in Ancestors(d)
        ensures Ancestors(q) <= Ancestors(d)
      {
        AncestorsNested(d, q);
      }
      dirs := dirs + Ancestors(d) + {d};
      r := Pass;
    }

    /**
     * `open(p, "wb").write(data)` (app/main.py:49-50): replaces or creates the
     * file, in one step; fails, writing nothing, when `p` is empty, when a
     * directory above `p` is missing or is a file, or when `p` is a directory.
     */
    method WriteFile(p: string, data: Bytes) returns (r: Outcome<Error>)
      requires Valid()
      modifies this
      ensures Valid() && dirs == old(dirs)
      ensures r.Pass? <==> old(p != "" && Ancestors(p) <= dirs && p !in dirs)
      ensures r.Pass? ==> files == old(files)[p := data]
      ensures r.Fail? ==> files == old(files) && r.error.IsOSError()
    {
      if p == "" {
        return Fail(FileNotFound(p));
      }
      if !(Ancestors(p) <= dirs) {
        return Fail(if Ancestors(p) * files.Keys != {} then NotADirectory(p) else FileNotFound(p));
      }
      if p in dirs {
        return Fail(IsADirectory(p));
      }
      files := files[p := data];
      r := Pass;
    }

    /** `open(p, "rb").read()` (app/main.py:23-24): the file's bytes, or the OSError open raises. */
    method ReadFile(p: string) returns (r: Result<Bytes, Error>)
      ensures r.Success? <==> p in files
      ensures r.Success? ==> r.value == files[p]
      ensures r.Failure? ==> r.error.IsOSError()
    {
      if p in files {
        return Success(files[p]);
      }
      if p in dirs {
        return Failure(IsADirectory(p));
      }
      if Ancestors(p) * files.Keys != {} {
        return Failure(NotADirectory(p));
      }
      r := Failure(FileNotFound(p));
    }

    /**
     * `cat-file -p <sha>` (app/main.py:20-26) up to the printing: reads the file
     * at the fan-out path, inflates it and returns everything after its first
     * NUL. The header is not checked: neither the kind nor the length field.
     */
    method CatFile(sha: string) returns (r: Result<Bytes, Error>)
      ensures ReadPath(sha) !in files ==> r.Failure? && r.error.IsOSError()
      ensures ReadPath(sha) in files ==>
        var raw := zlib.decompress(files[ReadPath(sha)]);
        && (raw.None? ==> r == Failure(ZlibError))
        && (raw.Some? && NUL !in raw.value ==> r == Failure(ValueError))
        && (raw.Some? && NUL in raw.value ==>
              r.Success? && exists h :: CutAtFirstNul(raw.value, h, r.value))
    {
      var f := ReadFile(ReadPath(sha));
      if f.Failure? {
        return Failure(f.error);
      }
      var raw := zlib.decompress(f.value);
      if raw.None? {
        return Failure(ZlibError);
      }
      var split := SplitHeader(raw.value);
      if split.Failure? {
        return Failure(split.error);
      }
      var (header, content) := split.value;
      assert CutAtFirstNul(raw.value, header, content);
      r := Success(content);
    }

    /**
     * `hash-object -w <file>` (app/main.py:27-53) as the code is evidently meant
     * to run, with `hashlib` imported: frames `content`, names it by its digest,
     * creates the fan-out directory only when it does not exist, and writes the
     * compressed frame to the one file at the digest's path. It succeeds exactly
     * when `CanStore` holds; on failure nothing has changed.
     */
    method HashObject(content: Bytes) returns (r: Result<string, Error>)
      requires Valid()
      modifies this
      ensures Valid()
      ensures r.Success? <==> old(CanStore(BlobDigest(content)))
      ensures r.Success? ==>
        && r.value == BlobDigest(content)
        && files == old(files)[WritePath(r.value) := zlib.compress(Frame(content))]
        && ObjectDir(r.value) in dirs
        && dirs == old(dirs) + Ancestors(ObjectDir(r.value)) + {ObjectDir(r.value)}
      ensures old(ObjectDir(BlobDigest(content)) in dirs) ==> dirs == old(dirs)
      ensures r.Failure? ==> files == old(files) && dirs == old(dirs) && r.error.IsOSError()
    {
      var header := BlobHeader(|content|);
      var store := header + content;
      var sha := sha1(store);
      var objDir := ObjectDir(sha);
      var objFile := ObjectFile(sha);
      HexDigestPath(sha);
      AncestorsOfChild(objDir, objFile);
      var present := Exists(objDir);
      if !present {
        var made := MakeDirs(objDir);
        if made.Fail? {
          return Failure(made.error);
        }
      }
      var written := WriteFile(PathJoin(objDir, objFile), zlib.compress(store));
      if written.Fail? {
        return Failure(written.error);
      }
      r := Success(sha);
    }

    /**
     * `hash-object -w <file>` as written: the frame is built (app/main.py:36-37),
     * but `hashlib` is never imported (app/main.py:1-3), so the digest line
     * (app/main.py:40) raises NameError before anything is written.
     */
    method HashObjectAsWritten(content: Bytes) returns (r: Result<string, Error>)
      ensures r == Failure(NameError("hashlib"))
    {
      var header := BlobHeader(|content|);
      var store := header + content;
      r := Failure(NameError("hashlib"));
    }
  }

  /**
   * hash-object -w then cat-file -p of the digest it names: when the write
   * succeeds, the read gives back exactly the original content.
   */
  method HashThenCat(repo: Repository, content: Bytes) returns (written: Result<string, Error>, read: Result<Bytes, Error>)
    requires repo.Valid()
    modifies repo
    ensures repo.Valid()
    ensures written.Success? <==> old(repo.CanStore(repo.BlobDigest(content)))
    ensures written.Success? ==> written.value == repo.BlobDigest(content) && read == Success(content)
  {
    written := repo.HashObject(content);
    var d := repo.BlobDigest(content);
    read := repo.CatFile(d);
    if written.Success? {
      HexDigestPath(d);
      FrameRoundTrip(content);
      ghost var h :| CutAtFirstNul(Frame(content), h, read.value);
      CutAtFirstNulUnique(Frame(content), h, read.value, EncodeAscii(HeaderText(|content|)), content);
    }
  }

  /**
   * Writing the same content twice names it the same way and leaves the files
   * as one write leaves them.
   */
  method HashTwice(repo: Repository, content: Bytes) returns (first: Result<string, Error>, second: Result<string, Error>)
    requires repo.Valid()
    modifies repo
    ensures repo.Valid()
    ensures first.Success? ==>
      && second == first
      && repo.files == old(repo.files)[WritePath(first.value) := repo.zlib.compress(Frame(content))]
  {
    first := repo.HashObject(content);
    second := repo.HashObject(content);
  }

  /**
   * In a fresh working directory, hash-object as it is meant to run stores
   * `content` where cat-file finds it.
   */
  method FreshRoundTrip(zlib: Zlib, sha1: Bytes -> string, content: Bytes)
    returns (written: Result<string, Error>, read: Result<Bytes, Error>)
    requires Lossless(zlib) && HexHasher(sha1)
    ensures written == Success(sha1(Frame(content)))
    ensures read == Success(content)
  {
    var repo := new Repository(zlib, sha1);
    written, read := HashThenCat(repo, content);
  }

  /**
   * In a fresh working directory, hash-object as written stores nothing, so
   * cat-file of the content's digest finds no file.
   */
  method FreshRoundTripAsWritten(zlib: Zlib, sha1: Bytes -> string, content: Bytes)
    returns (written: Result<string, Error>, read: Result<Bytes, Error>)
    requires Lossless(zlib) && HexHasher(sha1)
    ensures written == Failure(NameError("hashlib"))
    ensures read.Failure? && read.error.IsOSError()
  {
    var repo := new Repository(zlib, sha1);
    written := repo.HashObjectAsWritten(content);
    read := repo.CatFile(repo.BlobDigest(content));
  }
}
