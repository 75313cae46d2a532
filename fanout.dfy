/**
 * Where a loose object lives: `.git/objects/<first two characters of the digest>/<the rest>`.
 * cat-file spells the path with an f-string (app/main.py:23); hash-object builds
 * the directory and the file name separately and joins them with os.path.join
 * (app/main.py:43-44, :49).
 */
module FanOut {

  /** Python's `s[:n]`: the first `n` characters, or all of `s` when it is shorter. */
  function Take(s: string, n: nat): (t: string)
    ensures |t| == if |s| <= n then |s| else n
    ensures t == s[..|t|]
  {
    if |s| <= n then s else s[..n]
  }

  /** Python's `s[n:]`: what follows the first `n` characters, empty when `s` is shorter. */
  function Drop(s: string, n: nat): (t: string)
    ensures |t| == if |s| <= n then 0 else |s| - n
    ensures t == s[|s| - |t|..]
  {
    if |s| <= n then "" else s[n..]
  }

  /** Slicing at the same point loses nothing: `d[:2] + d[2:] == d`. */
  lemma TakeDrop(s: string, n: nat)
    ensures Take(s, n) + Drop(s, n) == s
    ensures |Take(s, n)| <= n
    ensures |Drop(s, n)| > 0 ==> |Take(s, n)| == n
  {
  }

  /**
   * `os.path.join(a, b)` on POSIX: an absolute `b` replaces `a`; otherwise the
   * result is `a`, then one `/` unless `a` is empty or already ends with one,
   * then `b`.
   */
  function PathJoin(a: string, b: string): (p: string)
    ensures |p| >= |b| && p[|p| - |b|..] == b
    ensures |b| > 0 && b[0] == '/' ==> p == b
    ensures !(|b| > 0 && b[0] == '/') ==> |a| <= |p| <= |a| + 1 + |b| && p[..|a|] == a
    ensures !(|b| > 0 && b[0] == '/') ==>
      && (|p| == |a| + |b| <==> a == "" || a[|a| - 1] == '/')
      && (|p| != |a| + |b| ==> |p| == |a| + 1 + |b| && p[|a|] == '/')
  {
    if |b| > 0 && b[0] == '/' then b
    else if a == "" || a[|a| - 1] == '/' then a + b
    else a + "/" + b
  }

  /** `f".git/objects/{blob_sha[:2]}/{blob_sha[2:]}"`: the file cat-file opens (app/main.py:23). */
  function ReadPath(sha: string): (p: string)
    ensures |p| == 14 + |sha|
    ensures p[..13] == ".git/objects/" && p[13..|p| - |ObjectFile(sha)|] == Take(sha, 2) + "/"
    ensures p[|p| - |ObjectFile(sha)|..] == ObjectFile(sha)
  {
    ".git/objects/" + Take(sha, 2) + "/" + Drop(sha, 2)
  }

  /** `f".git/objects/{sha1[:2]}"`: the fan-out directory hash-object creates (app/main.py:43). */
  function ObjectDir(sha: string): (p: string)
    ensures |p| == 13 + if |sha| <= 2 then |sha| else 2
    ensures p[..13] == ".git/objects/" && p[13..] == sha[..|p| - 13]
  {
    ".git/objects/" + Take(sha, 2)
  }

  /** `f"{sha1[2:]}"`: the file name inside the fan-out directory (app/main.py:44). */
  function ObjectFile(sha: string): (f: string)
    ensures ObjectDir(sha)[13..] + f == sha
  {
    Drop(sha, 2)
  }

  /** `os.path.join(obj_dir, obj_file)`: the file hash-object writes (app/main.py:49). */
  function WritePath(sha: string): (p: string)
    ensures |p| >= |ObjectFile(sha)| && p[|p| - |ObjectFile(sha)|..] == ObjectFile(sha)
  {
    PathJoin(ObjectDir(sha), ObjectFile(sha))
  }

  /**
   * The digests for which the two spellings can agree: a non-empty digest whose
   * directory part does not end in `/` and whose file part does not start with one.
   */
  predicate SlashFree(sha: string) {
    var t := Take(sha, 2);
    && t != ""
    && t[|t| - 1] != '/'
    && (|sha| <= 2 || sha[2] != '/')
  }

  /**
   * The reader and the writer name the same file exactly when the digest is
   * `SlashFree`; then both are the directory, one `/`, and the file name.
   */
  lemma ReadWriteAgree(sha: string)
    ensures ReadPath(sha) == WritePath(sha) <==> SlashFree(sha)
    ensures SlashFree(sha) ==> WritePath(sha) == ObjectDir(sha) + "/" + ObjectFile(sha)
  {
  }

  /** Lower-case hexadecimal digits, as `hexdigest()` writes them. */
  predicate IsHexChar(c: char) {
    '0' <= c <= '9' || 'a' <= c <= 'f'
  }

  /** A SHA-1 `hexdigest()`: forty lower-case hexadecimal characters. */
  predicate IsHexDigest(d: string) {
    |d| == 40 && forall i :: 0 <= i < |d| ==> IsHexChar(d[i])
  }

  /**
   * For a real digest, both sides use `.git/objects/<d[..2]>/<d[2..]>`: two
   * characters of directory, thirty-eight of file name with no separator in it.
   */
  lemma HexDigestPath(d: string)
    requires IsHexDigest(d)
    ensures ReadPath(d) == WritePath(d) == ".git/objects/" + d[..2] + "/" + d[2..]
    ensures ObjectDir(d) == ".git/objects/" + d[..2] && ObjectFile(d) == d[2..]
    ensures |ObjectFile(d)| == 38 && '/' !in ObjectFile(d)
    ensures ObjectDir(d) + ObjectFile(d) == ".git/objects/" + d
  {
    assert IsHexChar(d[1]) && IsHexChar(d[2]);
    ReadWriteAgree(d);
    assert !IsHexChar('/');
  }
}
