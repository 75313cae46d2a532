/**
 * The loose-object byte format of app/main.py: the `blob <len>\0` framing that
 * hash-object builds (app/main.py:36-37) and the split at the first NUL byte
 * that cat-file undoes it with (app/main.py:25).
 */
module BlobCodec {
  import opened Wrappers

  newtype byte = x: int | 0 <= x < 256

  type Bytes = seq<byte>

  /** The header terminator, `\0`. */
  const NUL: byte := 0

  // ---------------------------------------------------------------------------
  // ASCII text as bytes

  predicate IsAscii(s: string) {
    forall i :: 0 <= i < |s| ==> s[i] as int < 128
  }

  /**
   * `str.encode()` on pure-ASCII text: one byte per character, with the
   * character's code, so that reading the bytes back gives the text again.
   */
  function EncodeAscii(s: string): (b: Bytes)
    requires IsAscii(s)
    ensures |b| == |s|
    ensures forall i :: 0 <= i < |b| ==> b[i] as int == s[i] as int
    ensures DecodeAscii(b) == s
  {
    seq(|s|, i requires 0 <= i < |s| => s[i] as int as byte)
  }

  /** Reads each byte back as the character with that code. */
  function DecodeAscii(b: Bytes): string {
    seq(|b|, i requires 0 <= i < |b| => b[i] as int as char)
  }

  // ---------------------------------------------------------------------------
  // Decimal rendering of a length, as Python's str(int) writes it

  predicate IsDigit(c: char) {
    '0' <= c <= '9'
  }

  predicate AllDigits(s: string) {
    forall i :: 0 <= i < |s| ==> IsDigit(s[i])
  }

  function DigitChar(d: nat): (c: char)
    requires d < 10
    ensures IsDigit(c)
  {
    ('0' as int + d) as char
  }

  function DigitValue(c: char): (d: nat)
    requires IsDigit(c)
    ensures d < 10
  {
    c as int - '0' as int
  }

  /**
   * The base-ten digits of `n`, most significant first, as `str(n)` renders a
   * non-negative integer: never empty, and only the number zero starts with `0`.
   */
  function Decimal(n: nat): (s: string)
    ensures s != [] && AllDigits(s)
    ensures s[0] == '0' <==> n == 0
    ensures n == 0 ==> s == "0"
    decreases n
  {
    if n < 10 then [DigitChar(n)] else Decimal(n / 10) + [DigitChar(n % 10)]
  }

  /** The value of a string of decimal digits, most significant first. */
  function ParseDecimal(s: string): nat
    requires AllDigits(s)
    decreases |s|
  {
    if s == [] then 0 else ParseDecimal(s[..|s| - 1]) * 10 + DigitValue(s[|s| - 1])
  }

  /** Reading the rendered digits back gives the number that was rendered. */
  lemma {:induction false} DecimalRoundTrip(n: nat)
    ensures ParseDecimal(Decimal(n)) == n
    decreases n
  {
    var s := Decimal(n);
    if n < 10 {
      assert s[..|s| - 1] == [];
    } else {
      assert s[..|s| - 1] == Decimal(n / 10);
      DecimalRoundTrip(n / 10);
    }
  }

  // ---------------------------------------------------------------------------
  // Framing (app/main.py:36-37)

  /**
   * `f"blob {len(content)}"`, the header text before its terminator: ASCII
   * `blob `, then digits, and no NUL.
   */
  function HeaderText(len: nat): (t: string)
    ensures IsAscii(t) && |t| > 5
    ensures t[..5] == "blob " && AllDigits(t[5..])
    ensures forall i :: 0 <= i < |t| ==> t[i] != '\0'
  {
    "blob " + Decimal(len)
  }

  /** `f"blob {len(content)}\0".encode()`: the header with its NUL terminator. */
  function BlobHeader(len: nat): (h: Bytes)
    ensures h == EncodeAscii(HeaderText(len)) + [NUL]
    ensures |h| == |HeaderText(len)| + 1 && h[|h| - 1] == NUL
  {
    EncodeAscii(HeaderText(len) + "\0")
  }

  /**
   * `store = header + content`: the byte string that hash-object hashes and
   * compresses. The content is carried unchanged at the end.
   */
  function Frame(content: Bytes): (store: Bytes)
    ensures |store| > |content|
    ensures store[|store| - |content|..] == content
  {
    BlobHeader(|content|) + content
  }

  /** The header bytes hold no NUL, so the terminator is the first NUL of the frame. */
  lemma HeaderHasNoNul(len: nat)
    ensures NUL !in EncodeAscii(HeaderText(len))
    ensures BlobHeader(len) == EncodeAscii(HeaderText(len)) + [NUL]
  {
  }

  /**
   * Byte by byte, the frame is ASCII `blob `, the decimal length of the content,
   * one NUL, then the content.
   */
  lemma FrameLayout(content: Bytes)
    ensures var d := EncodeAscii(Decimal(|content|));
            var store := Frame(content);
            && |store| == 6 + |d| + |content|
            && store[..5] == [98, 108, 111, 98, 32]
            && store[5..5 + |d|] == d
            && store[5 + |d|] == NUL
            && store[6 + |d|..] == content
  {
  }

  // ---------------------------------------------------------------------------
  // Splitting at the first NUL (app/main.py:25)

  /** The index of the first occurrence of `b` in `s`, if any. */
  function FirstIndexOf(s: Bytes, b: byte): (r: Option<nat>)
    ensures r.None? <==> b !in s
    ensures r.Some? ==> r.value < |s| && s[r.value] == b && b !in s[..r.value]
    decreases |s|
  {
    if s == [] then None
    else if s[0] == b then Some(0)
    else match FirstIndexOf(s[1..], b)
      case None => None
      case Some(i) =>
        assert s[..i + 1] == [s[0]] + s[1..][..i];
        Some(i + 1)
  }

  /**
   * `s.split(sep, maxsplit=1)`: the bytes before the first `sep` and those after
   * it, or `s` alone when `sep` does not occur.
   */
  function SplitOnce(s: Bytes, sep: byte): (parts: seq<Bytes>)
    ensures |parts| == 1 || |parts| == 2
    ensures |parts| == 2 <==> sep in s
    ensures |parts| == 1 ==> parts[0] == s
    ensures |parts| == 2 ==> s == parts[0] + [sep] + parts[1] && sep !in parts[0]
  {
    match FirstIndexOf(s, sep)
    case None => [s]
    case Some(i) =>
      assert s == s[..i] + [sep] + s[i + 1..];
      [s[..i], s[i + 1..]]
  }

  /**
   * `header, content = raw.split(b"\0", maxsplit=1)`: succeeds exactly when `raw`
   * holds a NUL, and then cuts it at the first one; without a NUL the split has
   * one part and unpacking it into two names raises ValueError.
   */
  function SplitHeader(raw: Bytes): (r: Result<(Bytes, Bytes), Error>)
    ensures r.Success? <==> NUL in raw
    ensures r.Success? ==> raw == r.value.0 + [NUL] + r.value.1 && NUL !in r.value.0
    ensures r.Failure? ==> r.error == ValueError
  {
    var parts := SplitOnce(raw, NUL);
    if |parts| == 2 then Success((parts[0], parts[1])) else Failure(ValueError)
  }

  /** `c` is everything after the first NUL of `raw`, and `h` everything before it. */
  ghost predicate CutAtFirstNul(raw: Bytes, h: Bytes, c: Bytes) {
    raw == h + [NUL] + c && NUL !in h
  }

  /** A byte string has at most one cut at its first NUL. */
  lemma CutAtFirstNulUnique(raw: Bytes, h1: Bytes, c1: Bytes, h2: Bytes, c2: Bytes)
    requires CutAtFirstNul(raw, h1, c1) && CutAtFirstNul(raw, h2, c2)
    ensures h1 == h2 && c1 == c2
  {
    assert raw[|h1|] == NUL && raw[|h2|] == NUL;
    assert forall i | 0 <= i < |h1| :: raw[i] == h1[i];
    assert forall i | 0 <= i < |h2| :: raw[i] == h2[i];
    assert h1 == raw[..|h1|] == h2;
    assert c1 == raw[|h1| + 1..] == c2;
  }

  /**
   * cat-file does not look at the header: whatever precedes the first NUL, the
   * content it keeps is everything after that NUL, NUL bytes included.
   */
  lemma SplitIgnoresHeader(h: Bytes, c: Bytes)
    requires NUL !in h
    ensures SplitHeader(h + [NUL] + c) == Success((h, c))
  {
    var r := SplitHeader(h + [NUL] + c);
    CutAtFirstNulUnique(h + [NUL] + c, r.value.0, r.value.1, h, c);
  }

  /**
   * Round trip: splitting a frame at its first NUL gives back the header text
   * `blob <len>` and exactly the original content, even when the content itself
   * holds NUL bytes.
   */
  lemma FrameRoundTrip(content: Bytes)
    ensures SplitHeader(Frame(content)) == Success((EncodeAscii(HeaderText(|content|)), content))
  {
    HeaderHasNoNul(|content|);
    SplitIgnoresHeader(EncodeAscii(HeaderText(|content|)), content);
  }

  // ---------------------------------------------------------------------------
  // The length field

  /** Reads the length back out of a `blob <len>` header; None for any other header. */
  function ParseBlobHeader(h: Bytes): Option<nat> {
    var t := DecodeAscii(h);
    if |t| > 5 && t[..5] == "blob " && AllDigits(t[5..]) then Some(ParseDecimal(t[5..])) else None
  }

  /** The number written in the header of a frame is the byte length of its content. */
  lemma HeaderStatesLength(content: Bytes)
    ensures SplitHeader(Frame(content)).Success?
    ensures ParseBlobHeader(SplitHeader(Frame(content)).value.0) == Some(|content|)
  {
    FrameRoundTrip(content);
    var t := HeaderText(|content|);
    assert DecodeAscii(EncodeAscii(t)) == t;
    assert t[5..] == Decimal(|content|);
    DecimalRoundTrip(|content|);
  }

  /** The worked example: the file `hello\n` frames as `blob 6\0hello\n` and splits back. */
  lemma HelloExample()
    ensures Frame([104, 101, 108, 108, 111, 10]) == [98, 108, 111, 98, 32, 54, 0, 104, 101, 108, 108, 111, 10]
    ensures SplitHeader(Frame([104, 101, 108, 108, 111, 10])).value.1 == [104, 101, 108, 108, 111, 10]
  {
    var hello: Bytes := [104, 101, 108, 108, 111, 10];
    assert Decimal(6) == "6";
    assert HeaderText(6) == "blob 6";
    FrameRoundTrip(hello);
  }
}
